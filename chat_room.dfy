/** The `ChatRoom` and `User` entities as the persistence layer holds them in memory:
    the room owns a set of users and each user keeps the set of rooms it belongs to.
    `addUser` and `removeUser` keep both sides of this many-to-many link in step. */
module ChatRoomEntity {

  datatype ChatRoomType = Private | Group | Random

  class User {
    var username: string
    var chatRooms: set<ChatRoom>

    constructor (username: string)
      ensures this.username == username && chatRooms == {}
    {
      this.username := username;
      chatRooms := {};
    }
  }

  class ChatRoom {
    var name: string
    var kind: ChatRoomType
    var isPublic: bool
    var createdBy: User?
    var users: set<User>

    /** `new ChatRoom(name, type, createdBy)`: a public room with nobody in it yet. */
    constructor (name: string, kind: ChatRoomType, createdBy: User?)
      ensures this.name == name && this.kind == kind && this.createdBy == createdBy
      ensures isPublic && users == {}
    {
      this.name := name;
      this.kind := kind;
      this.createdBy := createdBy;
      isPublic := true;
      users := {};
    }

    /** Both sides agree on whether `user` is in this room. */
    ghost predicate LinkedWith(user: User)
      reads this, user
    {
      user in users <==> this in user.chatRooms
    }

    /** `addUser`: the user joins the room's set and the room joins the user's set;
        sets make a second add change nothing. */
    method AddUser(user: User)
      modifies this, user
      ensures users == old(users) + {user}
      ensures user.chatRooms == old(user.chatRooms) + {this}
      ensures LinkedWith(user)
      ensures user in old(users) && this in old(user.chatRooms) ==>
                users == old(users) && user.chatRooms == old(user.chatRooms)
      ensures name == old(name) && kind == old(kind) && isPublic == old(isPublic) && createdBy == old(createdBy)
      ensures user.username == old(user.username)
    {
      users := users + {user};
      user.chatRooms := user.chatRooms + {this};
    }

    /** `removeUser`: both sides of the link are dropped. */
    method RemoveUser(user: User)
      modifies this, user
      ensures users == old(users) - {user}
      ensures user.chatRooms == old(user.chatRooms) - {this}
      ensures LinkedWith(user)
      ensures name == old(name) && kind == old(kind) && isPublic == old(isPublic) && createdBy == old(createdBy)
      ensures user.username == old(user.username)
    {
      users := users - {user};
      user.chatRooms := user.chatRooms - {this};
    }
  }
}
