/** Refresh-token rotation of database/repositories/refresh_tokens.py, with the login,
    refresh and logout endpoints that call it.  Rows are numbered in insertion order and
    the number stands for the row's id; a token is known by its digest. */
module RefreshTokens {
  import opened Options

  datatype Token = Token(user: string, digest: string, expiresAt: int, revokedAt: Option<int>, replacedBy: Option<nat>)

  datatype Rotation = Rotated(id: nat) | UnknownToken | AlreadyUsedOrExpired | UserUnavailable

  predicate IsActive(t: Token, now: int) { t.revokedAt == None && t.expiresAt > now }

  function Issued(rows: seq<Token>, user: string, digest: string, now: int, ttl: int): seq<Token> {
    rows + [Token(user, digest, now + ttl, None, None)]
  }

  /** The row with the digest; the unique index admits at most one. */
  function Find(rows: seq<Token>, digest: string): Option<nat> {
    if rows == [] then None
    else if rows[|rows| - 1].digest == digest then Some(|rows| - 1)
    else Find(rows[..|rows| - 1], digest)
  }

  lemma FindIsRow(rows: seq<Token>, digest: string)
    ensures Find(rows, digest) == None <==> forall t :: t in rows ==> t.digest != digest
    ensures Find(rows, digest).Some? ==>
              Find(rows, digest).value < |rows| && rows[Find(rows, digest).value].digest == digest
  {
    if rows != [] {
      FindIsRow(rows[..|rows| - 1], digest);
      assert rows == rows[..|rows| - 1] + [rows[|rows| - 1]];
    }
  }

  function RevokedIf(t: Token, user: string, now: int): Token {
    if t.user == user && t.revokedAt == None then t.(revokedAt := Some(now)) else t
  }

  /** `revoke_all`. */
  function RevokedAll(rows: seq<Token>, user: string, now: int): seq<Token> {
    seq(|rows|, i requires 0 <= i < |rows| => RevokedIf(rows[i], user, now))
  }

  function Unrevoked(rows: seq<Token>, user: string): nat {
    if rows == [] then 0
    else
      var last := rows[|rows| - 1];
      Unrevoked(rows[..|rows| - 1], user) + if last.user == user && last.revokedAt == None then 1 else 0
  }

  /** `rotate`: the rows committed, also when it raises (the endpoint commits the
      revocation before it answers 401), and the outcome. */
  function AfterRotate(rows: seq<Token>, digest: string, next: string, available: set<string>, now: int,
                       ttl: int): (seq<Token>, Rotation) {
    var found := Find(rows, digest);
    if found == None then (rows, UnknownToken)
    else
      FindIsRow(rows, digest);
      var i := found.value;
      if !IsActive(rows[i], now) then (RevokedAll(rows, rows[i].user, now), AlreadyUsedOrExpired)
      else if rows[i].user !in available then (rows, UserUnavailable)
      else
        (Issued(rows[i := rows[i].(revokedAt := Some(now), replacedBy := Some(|rows|))], rows[i].user, next, now, ttl),
         Rotated(|rows|))
  }

  /** `revoke`, as the logout endpoint calls it. */
  function AfterRevoke(rows: seq<Token>, digest: string, now: int): (seq<Token>, bool) {
    var found := Find(rows, digest);
    if found == None then (rows, false)
    else
      FindIsRow(rows, digest);
      if rows[found.value].revokedAt != None then (rows, false)
      else (rows[found.value := rows[found.value].(revokedAt := Some(now))], true)
  }

  /** The unique index on digests. */
  ghost predicate Distinct(rows: seq<Token>) {
    forall i, j :: 0 <= i < j < |rows| ==> rows[i].digest != rows[j].digest
  }

  lemma {:induction false} FindIsIt(rows: seq<Token>, digest: string)
    requires Distinct(rows)
    ensures forall i :: 0 <= i < |rows| && rows[i].digest == digest ==> Find(rows, digest) == Some(i)
  {
    FindIsRow(rows, digest);
    forall i | 0 <= i < |rows| && rows[i].digest == digest ensures Find(rows, digest) == Some(i) {
      assert rows[i] in rows;
    }
  }

  /** All that was not revoked of the user is revoked now, and the rest is as it was. */
  ghost predicate FamilyRevoked(before: seq<Token>, after: seq<Token>, user: string, now: int) {
    |after| == |before| && forall i :: 0 <= i < |before| ==>
      after[i] == if before[i].user == user && before[i].revokedAt == None then before[i].(revokedAt := Some(now))
                  else before[i]
  }

  lemma {:induction false} UnrevokedIsCount(rows: seq<Token>, user: string)
    ensures Unrevoked(rows, user) == |set i | 0 <= i < |rows| && rows[i].user == user && rows[i].revokedAt == None|
  {
    if rows != [] {
      var front, n := rows[..|rows| - 1], |rows| - 1;
      UnrevokedIsCount(front, user);
      var counts := rows[n].user == user && rows[n].revokedAt == None;
      assert Unrevoked(rows, user) == Unrevoked(front, user) + if counts then 1 else 0;
      hide Unrevoked;
      var f := set i | 0 <= i < |front| && front[i].user == user && front[i].revokedAt == None;
      assert (set i | 0 <= i < |rows| && rows[i].user == user && rows[i].revokedAt == None) ==
             if counts then f + {n} else f;
    }
  }

  class RefreshTokenRepository {
    var rows: seq<Token>

    constructor ()
      ensures rows == []
    {
      rows := [];
    }

    method Issue(user: string, digest: string, now: int, ttl: int)
      modifies this
      ensures rows == Issued(old(rows), user, digest, now, ttl)
      ensures rows == old(rows) + [Token(user, digest, now + ttl, None, None)]
    {
      rows := rows + [Token(user, digest, now + ttl, None, None)];
    }

    method RevokeAll(user: string, now: int) returns (n: nat)
      modifies this
      ensures rows == RevokedAll(old(rows), user, now)
      ensures n == Unrevoked(old(rows), user)
      ensures |rows| == |old(rows)| && forall i :: 0 <= i < |rows| ==>
                rows[i] == if old(rows)[i].user == user && old(rows)[i].revokedAt == None
                           then old(rows)[i].(revokedAt := Some(now)) else old(rows)[i]
      ensures n == |set i | 0 <= i < |old(rows)| && old(rows)[i].user == user && old(rows)[i].revokedAt == None|
    {
      UnrevokedIsCount(rows, user);
      n := 0;
      ghost var before := rows;
      for i := 0 to |rows|
        invariant |rows| == |before|
        invariant forall j :: 0 <= j < i ==> rows[j] == RevokedIf(before[j], user, now)
        invariant forall j :: i <= j < |rows| ==> rows[j] == before[j]
        invariant n == Unrevoked(before[..i], user)
      {
        assert before[..i + 1][..i] == before[..i];
        if rows[i].user == user && rows[i].revokedAt == None {
          rows := rows[i := rows[i].(revokedAt := Some(now))];
          n := n + 1;
        }
      }
      assert before[..|before|] == before;
    }

    method Rotate(digest: string, next: string, available: set<string>, now: int, ttl: int) returns (r: Rotation)
      modifies this
      ensures (rows, r) == AfterRotate(old(rows), digest, next, available, now, ttl)
      ensures r == UnknownToken ==> rows == old(rows)
      ensures r == UnknownToken <==> forall i :: 0 <= i < |old(rows)| ==> old(rows)[i].digest != digest
      ensures Distinct(old(rows)) ==> forall i :: 0 <= i < |old(rows)| && old(rows)[i].digest == digest ==>
                var t := old(rows)[i];
                if t.revokedAt.Some? || t.expiresAt <= now then
                      r == AlreadyUsedOrExpired && FamilyRevoked(old(rows), rows, t.user, now)
                else if t.user !in available then r == UserUnavailable && rows == old(rows)
                else
                  && r == Rotated(|old(rows)|)
                  && rows == old(rows)[i := t.(revokedAt := Some(now), replacedBy := Some(|old(rows)|))]
                             + [Token(t.user, next, now + ttl, None, None)]
    {
      FindIsRow(rows, digest);
      if Distinct(rows) { FindIsIt(rows, digest); }
      var found := Find(rows, digest);
      if found == None { return UnknownToken; }
      FindIsRow(rows, digest);
      var row := found.value;
      var user := rows[row].user;
      if !IsActive(rows[row], now) {
        var _ := RevokeAll(user, now);
        return AlreadyUsedOrExpired;
      }
      if user !in available { return UserUnavailable; }
      var id := |rows|;
      Issue(user, next, now, ttl);
      rows := rows[row := rows[row].(revokedAt := Some(now), replacedBy := Some(id))];
      assert rows == Issued(old(rows)[row := rows[row]], user, next, now, ttl);
      return Rotated(id);
    }

    method Revoke(digest: string, now: int) returns (revoked: bool)
      modifies this
      ensures (rows, revoked) == AfterRevoke(old(rows), digest, now)
      ensures Distinct(old(rows)) ==>
                (revoked <==> exists i :: 0 <= i < |old(rows)| && old(rows)[i].digest == digest &&
                                          old(rows)[i].revokedAt == None)
      ensures |rows| == |old(rows)|
      ensures Distinct(old(rows)) ==> forall i :: 0 <= i < |rows| ==>
                rows[i] == if old(rows)[i].digest == digest && old(rows)[i].revokedAt == None
                           then old(rows)[i].(revokedAt := Some(now)) else old(rows)[i]
    {
      FindIsRow(rows, digest);
      if Distinct(rows) { FindIsIt(rows, digest); }
      var found := Find(rows, digest);
      if found == None { return false; }
      FindIsRow(rows, digest);
      if rows[found.value].revokedAt != None { return false; }
      rows := rows[found.value := rows[found.value].(revokedAt := Some(now))];
      return true;
    }
  }

  // ----- Whole runs of logins, refreshes and logouts -----

  /** The rows, and for each row the login it descends from. */
  datatype State = State(rows: seq<Token>, logins: seq<nat>)

  datatype Event =
    | Login(user: string, digest: string, now: int, ttl: int)
    | Refresh(digest: string, next: string, available: set<string>, now: int, ttl: int)
    | Logout(digest: string, now: int)

  /** New tokens are drawn with fresh digests. */
  predicate Possible(s: State, e: Event) {
    match e
    case Login(_, digest, _, _) => Find(s.rows, digest) == None
    case Refresh(_, next, _, _, _) => Find(s.rows, next) == None
    case Logout(_, _) => true
  }

  function After(s: State, e: Event): State {
    match e
    case Login(user, digest, now, ttl) => State(Issued(s.rows, user, digest, now, ttl), s.logins + [|s.rows|])
    case Refresh(digest, next, available, now, ttl) =>
      var (rows, r) := AfterRotate(s.rows, digest, next, available, now, ttl);
      var found := Find(s.rows, digest);
      State(rows, if r.Rotated? && found.value < |s.logins| then s.logins + [s.logins[found.value]] else s.logins)
    case Logout(digest, now) => s.(rows := AfterRevoke(s.rows, digest, now).0)
  }

  const START := State([], [])

  ghost predicate Run(states: seq<State>, events: seq<Event>) {
    && |states| == |events| + 1 && states[0] == START
    && forall i :: 0 <= i < |events| ==> Possible(states[i], events[i]) && states[i + 1] == After(states[i], events[i])
  }

  /** Row `i` was replaced by a later row of the same user and login. */
  ghost predicate Replaced(s: State, i: nat)
    requires |s.logins| == |s.rows| && i < |s.rows| && s.rows[i].replacedBy.Some?
  {
    var j := s.rows[i].replacedBy.value;
    i < j < |s.rows| && s.rows[i].revokedAt.Some? && s.rows[j].user == s.rows[i].user && s.logins[j] == s.logins[i]
  }

  ghost predicate Linked(s: State)
    requires |s.logins| == |s.rows|
  {
    && (forall i :: 0 <= i < |s.rows| && s.rows[i].replacedBy.Some? ==> Replaced(s, i))
    && (forall i, j :: 0 <= i < j < |s.rows| && s.rows[i].replacedBy.Some? ==>
       s.rows[i].replacedBy != s.rows[j].replacedBy)
  }

  /** Of two rows of one login, the older was rotated away no later than the newer came. */
  ghost predicate Chained(s: State)
    requires |s.logins| == |s.rows|
  {
    forall i, j :: 0 <= i < j < |s.rows| && s.logins[i] == s.logins[j] ==>
      s.rows[i].revokedAt.Some? && s.rows[i].replacedBy.Some? && s.rows[i].replacedBy.value <= j
  }

  ghost predicate Inv(s: State) {
    && |s.logins| == |s.rows| && (forall i :: 0 <= i < |s.rows| ==> s.logins[i] <= i)
    && Distinct(s.rows) && Linked(s) && Chained(s)
  }

  /** What later rows keep of earlier ones: a revocation time and a successor are written once. */
  ghost predicate Extends(rows: seq<Token>, rows': seq<Token>) {
    && |rows| <= |rows'|
    && forall i :: 0 <= i < |rows| ==>
         && rows'[i].user == rows[i].user && rows'[i].digest == rows[i].digest &&
            rows'[i].expiresAt == rows[i].expiresAt
         && (rows[i].revokedAt.Some? ==> rows'[i].revokedAt == rows[i].revokedAt)
         && (rows[i].replacedBy.Some? ==> rows'[i].replacedBy == rows[i].replacedBy)
  }

  // The four things a step can do to the rows: nothing, revoke some, append a login, rotate one.

  ghost predicate OnlyRevokes(rows: seq<Token>, rows': seq<Token>) {
    && |rows'| == |rows|
    && forall i :: 0 <= i < |rows| ==>
         rows'[i] == rows[i] || (rows[i].revokedAt == None && rows'[i] == rows[i].(revokedAt := rows'[i].revokedAt) &&
             rows'[i].revokedAt.Some?)
  }

  ghost predicate Appends(s: State, s': State) {
    && |s'.rows| == |s.rows| + 1 && s'.rows[..|s.rows|] == s.rows && s'.logins == s.logins + [|s.rows|]
    && s'.rows[|s.rows|].replacedBy == None && forall t :: t in s.rows ==> t.digest != s'.rows[|s.rows|].digest
  }

  ghost predicate Rotates(s: State, s': State, i: nat)
    requires i < |s.rows| == |s.logins|
  {
    && s.rows[i].revokedAt == None && |s'.rows| == |s.rows| + 1 && s'.logins == s.logins + [s.logins[i]]
    && (forall j :: 0 <= j < |s.rows| && j != i ==> s'.rows[j] == s.rows[j])
    && s'.rows[i].revokedAt.Some? && s'.rows[i].replacedBy == Some(|s.rows|)
    && s'.rows[i] == s.rows[i].(revokedAt := s'.rows[i].revokedAt, replacedBy := s'.rows[i].replacedBy)
    && s'.rows[|s.rows|].replacedBy == None && s'.rows[|s.rows|].user == s.rows[i].user
    && s'.rows[|s.rows|].revokedAt == None
    && forall t :: t in s.rows ==> t.digest != s'.rows[|s.rows|].digest
  }

  lemma {:induction false} RotateRotates(s: State, e: Event)
    requires |s.logins| == |s.rows| && Possible(s, e) && e.Refresh?
    ensures match AfterRotate(s.rows, e.digest, e.next, e.available, e.now, e.ttl).1
            case Rotated(_) =>
              var i := Find(s.rows, e.digest); i.Some? && i.value < |s.rows| && Rotates(s, After(s, e), i.value)
            case _ => After(s, e).logins == s.logins && OnlyRevokes(s.rows, After(s, e).rows)
  {
    FindIsRow(s.rows, e.digest);
    FindIsRow(s.rows, e.next);
  }

  lemma {:induction false} LogoutRevokes(s: State, e: Event)
    requires e.Logout?
    ensures After(s, e).logins == s.logins && OnlyRevokes(s.rows, After(s, e).rows)
  {
    FindIsRow(s.rows, e.digest);
  }

  lemma {:induction false} LoginAppends(s: State, e: Event)
    requires Possible(s, e) && e.Login?
    ensures Appends(s, After(s, e))
  {
    FindIsRow(s.rows, e.digest);
  }

  lemma {:induction false} RevokingKeepsInv(s: State, s': State)
    requires Inv(s) && s'.logins == s.logins && OnlyRevokes(s.rows, s'.rows)
    ensures Inv(s') && Extends(s.rows, s'.rows)
  {
    forall i | 0 <= i < |s'.rows| && s'.rows[i].replacedBy.Some? ensures Replaced(s', i) {
      assert Replaced(s, i);
    }
  }

  lemma {:induction false} AppendedDistinct(rows: seq<Token>, rows': seq<Token>)
    requires Distinct(rows) && |rows'| == |rows| + 1 && forall i :: 0 <= i < |rows| ==>
             rows'[i].digest == rows[i].digest
    requires forall t :: t in rows ==> t.digest != rows'[|rows|].digest
    ensures Distinct(rows')
  {
    assert forall i :: 0 <= i < |rows| ==> rows[i] in rows;
  }

  lemma {:induction false} AppendingKeepsInv(s: State, s': State)
    requires Inv(s) && Appends(s, s')
    ensures Inv(s') && Extends(s.rows, s'.rows)
  {
    assert forall i :: 0 <= i < |s.rows| ==> s'.rows[i] == s'.rows[..|s.rows|][i];
    AppendedDistinct(s.rows, s'.rows);
    hide Distinct;
    forall i | 0 <= i < |s'.rows| && s'.rows[i].replacedBy.Some? ensures Replaced(s', i) {
      assert Replaced(s, i);
    }
  }

  lemma {:induction false} RotatingLinks(s: State, s': State, k: nat)
    requires |s.logins| == |s.rows| && k < |s.rows| && Rotates(s, s', k) && Linked(s) && s.rows[k].replacedBy == None
    ensures Linked(s')
  {
    forall i | 0 <= i < |s.rows| && s.rows[i].replacedBy.Some? ensures s.rows[i].replacedBy.value < |s.rows| {
      assert Replaced(s, i);
    }
    forall i | 0 <= i < |s'.rows| && s'.rows[i].replacedBy.Some? ensures Replaced(s', i) {
      if i != k { assert Replaced(s, i); }
    }
  }

  lemma {:induction false} RotatingChains(s: State, s': State, k: nat)
    requires |s.logins| == |s.rows| && k < |s.rows| && Rotates(s, s', k) && Chained(s)
    ensures Chained(s')
  {
    forall i, j | 0 <= i < j < |s'.rows| && s'.logins[i] == s'.logins[j]
      ensures s'.rows[i].revokedAt.Some? && s'.rows[i].replacedBy.Some? && s'.rows[i].replacedBy.value <= j
    {
      if j == |s.rows| && i != k {
        assert s.logins[i] == s.logins[k];
        assert i < k;
      }
    }
  }

  lemma {:induction false} RotatingKeepsInv(s: State, s': State, k: nat)
    requires Inv(s) && k < |s.rows| && Rotates(s, s', k)
    ensures Inv(s') && Extends(s.rows, s'.rows)
  {
    assert forall i :: 0 <= i < |s.rows| ==> s'.rows[i].digest == s.rows[i].digest;
    assert s.rows[k].replacedBy.Some? ==> Replaced(s, k);
    AppendedDistinct(s.rows, s'.rows);
    RotatingLinks(s, s', k);
    RotatingChains(s, s', k);
    hide Distinct, Linked, Chained;
  }

  lemma {:induction false} StepKeepsInv(s: State, e: Event)
    requires Inv(s) && Possible(s, e)
    ensures Inv(After(s, e)) && Extends(s.rows, After(s, e).rows)
  {
    assert |s.logins| == |s.rows|;
    hide Inv, Extends, After, Possible, Rotates, OnlyRevokes, Appends;
    match e
    case Login(_, _, _, _) =>
      LoginAppends(s, e);
      AppendingKeepsInv(s, After(s, e));
    case Refresh(_, _, _, _, _) =>
      RotateRotates(s, e);
      if AfterRotate(s.rows, e.digest, e.next, e.available, e.now, e.ttl).1.Rotated? {
        RotatingKeepsInv(s, After(s, e), Find(s.rows, e.digest).value);
      } else {
        RevokingKeepsInv(s, After(s, e));
      }
    case Logout(_, _) =>
      LogoutRevokes(s, e);
      RevokingKeepsInv(s, After(s, e));
  }

  lemma {:induction false} RunKeepsInv(states: seq<State>, events: seq<Event>, i: nat)
    requires Run(states, events) && i < |states|
    ensures Inv(states[i])
  {
    hide After;
    if i > 0 {
      RunKeepsInv(states, events, i - 1);
      hide Inv;
      StepKeepsInv(states[i - 1], events[i - 1]);
    }
  }

  /** Over every run, revocation times and successors are written once, and rows are never
      dropped or otherwise changed. */
  lemma {:induction false} WrittenOnce(states: seq<State>, events: seq<Event>, i: nat, j: nat)
    requires Run(states, events) && i <= j < |states|
    ensures Extends(states[i].rows, states[j].rows)
    decreases j
  {
    hide After, Inv;
    if i < j {
      WrittenOnce(states, events, i, j - 1);
      RunKeepsInv(states, events, j - 1);
      StepKeepsInv(states[j - 1], events[j - 1]);
    }
  }

  lemma {:induction false} RevokedIsFrozen(s: State, e: Event, row: nat)
    requires Inv(s) && Possible(s, e) && row < |s.rows| && s.rows[row].revokedAt.Some?
    ensures row < |After(s, e).rows| && After(s, e).rows[row] == s.rows[row]
  {
    match e
    case Login(_, _, _, _) =>
      LoginAppends(s, e);
      assert After(s, e).rows[..|s.rows|][row] == s.rows[row];
    case Logout(_, _) => LogoutRevokes(s, e);
    case Refresh(_, _, _, _, _) => RotateRotates(s, e);
  }

  /** Over every run, a revoked row never changes again. */
  lemma {:induction false} FrozenForGood(states: seq<State>, events: seq<Event>, i: nat, j: nat, row: nat)
    requires Run(states, events) && i <= j < |states|
    requires row < |states[i].rows| && states[i].rows[row].revokedAt.Some?
    ensures row < |states[j].rows| && states[j].rows[row] == states[i].rows[row]
    decreases j
  {
    hide After, Inv;
    if i < j {
      FrozenForGood(states, events, i, j - 1, row);
      RunKeepsInv(states, events, j - 1);
      RevokedIsFrozen(states[j - 1], events[j - 1], row);
    }
  }

  /** Over every run: once a known token has been presented at logout it is revoked for good, at
      no later time active, and presenting it again is reuse and gives no successor. */
  lemma {:induction false} LogoutIsFinal(states: seq<State>, events: seq<Event>, i: nat, j: nat, row: nat)
    requires Run(states, events) && i < j < |states| && events[i].Logout?
    requires row < |states[i].rows| && states[i].rows[row].digest == events[i].digest
    ensures row < |states[j].rows| && states[j].rows[row].revokedAt.Some?
    ensures states[j].rows[row].replacedBy == states[i].rows[row].replacedBy
    ensures j < |events| && events[j].Refresh? && events[j].digest == events[i].digest ==>
              var e := events[j];
              && AfterRotate(states[j].rows, e.digest, e.next, e.available, e.now, e.ttl).1 == AlreadyUsedOrExpired
              && |states[j + 1].rows| == |states[j].rows|
  {
    RunKeepsInv(states, events, i);
    RunKeepsInv(states, events, j);
    var s := states[i];
    assert states[i + 1] == After(s, events[i]);
    FindIsIt(s.rows, events[i].digest);
    assert Find(s.rows, events[i].digest) == Some(row);
    assert states[i + 1].rows[row].revokedAt.Some? && states[i + 1].rows[row].replacedBy == s.rows[row].replacedBy;
    assert states[i + 1].rows[row].digest == s.rows[row].digest;
    FrozenForGood(states, events, i + 1, j, row);
    FindIsIt(states[j].rows, events[i].digest);
    assert j < |events| ==> states[j + 1] == After(states[j], events[j]);
    hide Inv, Run;
  }

  /** Over every run, `replaced_by` points to a later row of the same user and login, so it
      never cycles, and no two rows share a successor. */
  lemma {:induction false} SuccessorsAreChains(states: seq<State>, events: seq<Event>, n: nat)
    requires Run(states, events) && n < |states|
    ensures |states[n].logins| == |states[n].rows|
    ensures forall i :: 0 <= i < |states[n].rows| && states[n].rows[i].replacedBy.Some? ==> Replaced(states[n], i)
    ensures forall i, j :: 0 <= i < j < |states[n].rows| && states[n].rows[i].replacedBy.Some? ==>
              states[n].rows[i].replacedBy != states[n].rows[j].replacedBy
  {
    RunKeepsInv(states, events, n);
    hide After, Run;
  }

  /** Over every run, two tokens of one login are never both unrevoked, and one that is not
      revoked is the newest of its login and has no successor: the end of its chain. */
  lemma {:induction false} OneActivePerLogin(states: seq<State>, events: seq<Event>, n: nat, i: nat)
    requires Run(states, events) && n < |states| && i < |states[n].rows| && states[n].rows[i].revokedAt == None
    ensures |states[n].logins| == |states[n].rows| && states[n].rows[i].replacedBy == None
    ensures forall j :: 0 <= j < |states[n].rows| && states[n].logins[j] == states[n].logins[i] && j != i ==>
              j < i && states[n].rows[j].revokedAt.Some? && states[n].rows[j].replacedBy.Some?
  {
    RunKeepsInv(states, events, n);
    hide After, Run;
    var s := states[n];
    assert s.rows[i].replacedBy.Some? ==> Replaced(s, i);
  }

  // ----- Reuse detection -----

  ghost predicate NoneLeft(rows: seq<Token>, user: string) {
    forall t :: t in rows && t.user == user ==> t.revokedAt.Some?
  }

  /** Presenting a known token that is not active leaves its user without any token. */
  lemma {:induction false} ReuseRevokesAll(rows: seq<Token>, digest: string, next: string, available: set<string>,
                                           now: int, ttl: int, i: nat)
    requires Find(rows, digest) == Some(i) && i < |rows| && !IsActive(rows[i], now)
    ensures var (rows', r) := AfterRotate(rows, digest, next, available, now, ttl);
            r == AlreadyUsedOrExpired && NoneLeft(rows', rows[i].user)
  {
  }

  lemma {:induction false} NoneLeftStays(s: State, e: Event, user: string)
    requires Inv(s) && Possible(s, e) && NoneLeft(s.rows, user) && !(e.Login? && e.user == user)
    ensures NoneLeft(After(s, e).rows, user)
  {
    match e
    case Login(_, _, _, _) =>
    case Logout(_, _) =>
      LogoutRevokes(s, e);
      RevokedStay(s, After(s, e), user);
    case Refresh(_, _, _, _, _) =>
      RotateRotates(s, e);
      if AfterRotate(s.rows, e.digest, e.next, e.available, e.now, e.ttl).1.Rotated? {
        var k := Find(s.rows, e.digest).value;
        assert s.rows[k] in s.rows && s.rows[k].user != user;
        RotatedOther(s, After(s, e), k, user);
      } else {
        RevokedStay(s, After(s, e), user);
      }
  }

  lemma {:induction false} RevokedStay(s: State, s': State, user: string)
    requires NoneLeft(s.rows, user) && OnlyRevokes(s.rows, s'.rows)
    ensures NoneLeft(s'.rows, user)
  {
    forall t | t in s'.rows && t.user == user ensures t.revokedAt.Some? {
      var i :| 0 <= i < |s'.rows| && s'.rows[i] == t;
      assert s.rows[i] in s.rows;
    }
  }

  lemma {:induction false} RotatedOther(s: State, s': State, k: nat, user: string)
    requires |s.logins| == |s.rows| && k < |s.rows| && Rotates(s, s', k)
    requires NoneLeft(s.rows, user) && s.rows[k].user != user
    ensures NoneLeft(s'.rows, user)
  {
    forall t | t in s'.rows && t.user == user ensures t.revokedAt.Some? {
      var i :| 0 <= i < |s'.rows| && s'.rows[i] == t;
      assert i < |s.rows| && s.rows[i] in s.rows;
    }
  }

  /** Over every run: once a token that is not active has been presented, its user holds no
      active token at any later time until that user logs in again. */
  lemma {:induction false} NoTokenUntilLogin(states: seq<State>, events: seq<Event>, i: nat, j: nat, row: nat, now: int)
    requires Run(states, events) && i < j < |states| && events[i].Refresh?
    requires Find(states[i].rows, events[i].digest) == Some(row) && row < |states[i].rows|
    requires !IsActive(states[i].rows[row], events[i].now)
    requires forall k :: i < k < j ==> !(events[k].Login? && events[k].user == states[i].rows[row].user)
    ensures NoneLeft(states[j].rows, states[i].rows[row].user)
    ensures forall t :: t in states[j].rows && t.user == states[i].rows[row].user ==> !IsActive(t, now)
    decreases j
  {
    var e := events[i];
    if j == i + 1 {
      ReuseRevokesAll(states[i].rows, e.digest, e.next, e.available, e.now, e.ttl, row);
    } else {
      NoTokenUntilLogin(states, events, i, j - 1, row, now);
      RunKeepsInv(states, events, j - 1);
      hide Inv, After, IsActive;
      NoneLeftStays(states[j - 1], events[j - 1], states[i].rows[row].user);
    }
  }
}
