/** `FriendCodeService`: eight-digit friend codes, their format check, and the bounded
    retry loop that draws a code not yet in use. The random draws and the set of codes
    already held by users are parameters. */
module FriendCodes {
  import opened Wrappers

  const MinCode: int := 10000000
  const MaxCode: int := 99999999
  const MaxAttempts: nat := 100

  /** `isValidFriendCodeFormat`: a non-null code between the two bounds. */
  predicate IsValidFriendCodeFormat(code: Option<int>) {
    code.Some? && MinCode <= code.value <= MaxCode
  }

  /** `generateRandomCode`: the bound plus a draw of `nextInt(MaxCode - MinCode + 1)`. */
  function GenerateRandomCode(draw: nat): (code: int)
    requires draw < MaxCode - MinCode + 1
    ensures IsValidFriendCodeFormat(Some(code))
    ensures code - MinCode == draw
  {
    MinCode + draw
  }

  /** Every eight-digit code is some draw's code, so the generator reaches them all. */
  lemma EveryCodeReachable(code: int)
    requires IsValidFriendCodeFormat(Some(code))
    ensures exists d: nat :: d < MaxCode - MinCode + 1 && GenerateRandomCode(d) == code
  {
    var d: nat := code - MinCode;
    assert GenerateRandomCode(d) == code;
  }

  /** `generateUniqueFriendCode`: codes are drawn until one is unused, giving up when a
      101st draw is needed, before that draw is checked. `draws[i]` is the `i`-th random
      value; `used` holds the codes users already have. */
  method GenerateUniqueFriendCode(draws: seq<nat>, used: set<int>) returns (r: Result<int, string>)
    requires |draws| > MaxAttempts
    requires forall i :: 0 <= i < |draws| ==> draws[i] < MaxCode - MinCode + 1
    ensures r.Err? <==> forall i :: 0 <= i < MaxAttempts ==> MinCode + draws[i] in used
    ensures r.Ok? ==> IsValidFriendCodeFormat(Some(r.value)) && r.value !in used
    ensures r.Ok? ==> exists i :: 0 <= i < MaxAttempts && r.value == MinCode + draws[i]
                                  && forall j :: 0 <= j < i ==> MinCode + draws[j] in used
  {
    var attempts := 0;
    var code := GenerateRandomCode(draws[attempts]);
    attempts := attempts + 1;
    while code in used
      invariant 1 <= attempts <= MaxAttempts + 1
      invariant code == MinCode + draws[attempts - 1]
      invariant forall j :: 0 <= j < attempts - 1 ==> MinCode + draws[j] in used
      invariant attempts > MaxAttempts ==> false
      decreases MaxAttempts + 1 - attempts
    {
      if attempts == MaxAttempts {
        return Err("フレンドコードの生成に失敗しました（最大試行回数に達しました）");
      }
      code := GenerateRandomCode(draws[attempts]);
      attempts := attempts + 1;
    }
    r := Ok(code);
  }
}
