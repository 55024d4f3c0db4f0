/** `UserService`: registration with its duplicate checks and friend-code assignment, and
    the user search that tries an id, then a friend code, then a username fragment. The
    user table is a sequence of accounts in repository order; password hashing and the
    random friend-code draws are parameters. */
module Users {
  import opened Wrappers
  import opened Ids
  import opened Text
  import opened Collections
  import opened FriendCodes

  datatype Account = Account(id: UserId, username: string, passwordHash: string, email: string, friendCode: Option<int>)

  datatype RegisterError = UsernameTaken | EmailTaken | FriendCodeExhausted

  function FindById(users: seq<Account>, id: int): (r: Option<Account>)
    ensures r.Some? ==> r.value in users && r.value.id == id
    ensures r.None? <==> forall a :: a in users ==> a.id != id
  {
    if users == [] then None
    else if users[0].id == id then Some(users[0])
    else FindById(users[1..], id)
  }

  function FindByFriendCode(users: seq<Account>, code: int): (r: Option<Account>)
    ensures r.Some? ==> r.value in users && r.value.friendCode == Some(code)
    ensures r.None? <==> forall a :: a in users ==> a.friendCode != Some(code)
  {
    if users == [] then None
    else if users[0].friendCode == Some(code) then Some(users[0])
    else FindByFriendCode(users[1..], code)
  }

  /** `findByUsernameContainingIgnoreCase`: the username contains the query, ignoring case. */
  predicate NameMatches(a: Account, query: string) {
    Contains(ToLower(a.username), ToLower(query))
  }

  /** `searchUsers`: the user whose id the query parses to; else, for a query that parses
      to a well-formed friend code, the user holding it; else every user whose name
      contains the query, ignoring case. */
  function SearchUsers(users: seq<Account>, query: string): (r: seq<Account>)
    ensures ParseLong(query).Some? && FindById(users, ParseLong(query).value).Some? ==>
              r == [FindById(users, ParseLong(query).value).value]
    ensures (ParseLong(query).None? || FindById(users, ParseLong(query).value).None?)
            && ParseInt(query).Some? && IsValidFriendCodeFormat(ParseInt(query))
            && FindByFriendCode(users, ParseInt(query).value).Some? ==>
              r == [FindByFriendCode(users, ParseInt(query).value).value]
    ensures (ParseLong(query).None? || FindById(users, ParseLong(query).value).None?)
            && (ParseInt(query).None? || !IsValidFriendCodeFormat(ParseInt(query))
                || FindByFriendCode(users, ParseInt(query).value).None?) ==>
              IsSubseq(r, users) && forall a :: a in r <==> a in users && NameMatches(a, query)
  {
    var id := ParseLong(query);
    var byId := if id.Some? then FindById(users, id.value) else None;
    if byId.Some? then [byId.value]
    else
      var code := ParseInt(query);
      var byCode := if IsValidFriendCodeFormat(code) then FindByFriendCode(users, code.value) else None;
      if byCode.Some? then [byCode.value]
      else Filter(users, (a: Account) => NameMatches(a, query))
  }

  /** Every result comes from the table: the search never invents a user. */
  lemma SearchFromTable(users: seq<Account>, query: string)
    ensures forall a :: a in SearchUsers(users, query) ==> a in users
  {
  }

  /** A query naming a user's id finds exactly that user, even when the same digits are
      also someone's friend code: the id lookup comes first. */
  lemma IdBeatsFriendCode(users: seq<Account>, a: Account)
    requires a in users && a.id <= LongMax
    requires forall b :: b in users && b.id == a.id ==> b == a
    ensures SearchUsers(users, NatToString(a.id)) == [a]
  {
    ParseLongNatToString(a.id);
    assert FindById(users, a.id).Some?;
  }

  /** Usernames, emails and friend codes are unique, and ids are below the counter. */
  ghost predicate Registered(users: seq<Account>, nextId: UserId) {
    && (forall i, j :: 0 <= i < j < |users| ==> users[i].username != users[j].username)
    && (forall i, j :: 0 <= i < j < |users| ==> users[i].email != users[j].email)
    && (forall i, j :: 0 <= i < j < |users| && users[i].friendCode.Some? ==> users[i].friendCode != users[j].friendCode)
    && (forall i :: 0 <= i < |users| ==> users[i].id < nextId)
  }

  /** A new account with a fresh username, email and friend code, numbered by the counter,
      keeps the table registered. */
  lemma RegisteredAppend(users: seq<Account>, nextId: UserId, account: Account)
    requires Registered(users, nextId) && account.id == nextId
    requires forall a :: a in users ==> a.username != account.username && a.email != account.email
    requires account.friendCode.Some? && account.friendCode.value !in FriendCodesInUse(users)
    ensures Registered(users + [account], nextId + 1)
  {
    var all := users + [account];
    forall i, j | 0 <= i < j < |all|
      ensures all[i].username != all[j].username && all[i].email != all[j].email
      ensures all[i].friendCode.Some? ==> all[i].friendCode != all[j].friendCode
    {
      assert all[i] == users[i] && users[i] in users;
      if j < |users| {
        assert all[j] == users[j];
      } else {
        assert all[j] == account;
      }
    }
  }

  function FriendCodesInUse(users: seq<Account>): (r: set<int>)
    ensures forall c :: c in r <==> exists a :: a in users && a.friendCode == Some(c)
  {
    set a | a in users && a.friendCode.Some? :: a.friendCode.value
  }

  class UserService {
    var users: seq<Account>
    var nextId: UserId

    ghost predicate Valid()
      reads this
    {
      Registered(users, nextId)
    }

    constructor ()
      ensures Valid() && users == []
    {
      users := [];
      nextId := 1;
    }

    /** `registerUser`: a taken username, then a taken email, is refused before anything is
        saved; otherwise the user is stored with the hashed password and a friend code
        nobody holds. */
    method RegisterUser(username: string, hashedPassword: string, email: string, draws: seq<nat>)
      returns (r: Result<Account, RegisterError>)
      requires Valid()
      requires |draws| > MaxAttempts && forall i :: 0 <= i < |draws| ==> draws[i] < MaxCode - MinCode + 1
      modifies this
      ensures Valid()
      ensures (exists a :: a in old(users) && a.username == username) ==> r == Err(UsernameTaken)
      ensures ((forall a :: a in old(users) ==> a.username != username)
               && (exists a :: a in old(users) && a.email == email)) ==> r == Err(EmailTaken)
      ensures (forall a :: a in old(users) ==> a.username != username && a.email != email) ==>
                && (r.Err? <==> forall i :: 0 <= i < MaxAttempts ==> MinCode + draws[i] in FriendCodesInUse(old(users)))
                && (r.Err? ==> r == Err(FriendCodeExhausted))
      ensures r.Err? ==> users == old(users)
      ensures r.Ok? ==> exists i :: 0 <= i < MaxAttempts && r.value.friendCode == Some(MinCode + draws[i])
                                   && forall j :: 0 <= j < i ==> MinCode + draws[j] in FriendCodesInUse(old(users))
      ensures r.Ok? ==>
                && users == old(users) + [r.value]
                && r.value.username == username && r.value.email == email
                && r.value.passwordHash == hashedPassword
                && IsValidFriendCodeFormat(r.value.friendCode)
                && r.value.friendCode.value !in FriendCodesInUse(old(users))
    {
      if exists a :: a in users && a.username == username {
        return Err(UsernameTaken);
      }
      if exists a :: a in users && a.email == email {
        return Err(EmailTaken);
      }
      var code := GenerateUniqueFriendCode(draws, FriendCodesInUse(users));
      if code.Err? {
        return Err(FriendCodeExhausted);
      }
      var account := Account(nextId, username, hashedPassword, email, Some(code.value));
      RegisteredAppend(users, nextId, account);
      users := users + [account];
      nextId := nextId + 1;
      r := Ok(account);
    }
  }
}
