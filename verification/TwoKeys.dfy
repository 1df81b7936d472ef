/** Telegram accounts, groups and channels are known by an id, by a username, or by both: how
    a record finds its row, and what happens when the same records come again. */
module TwoKeys {
  import opened Options

  datatype Row = Row(tid: Option<int>, name: Option<string>)

  /** What a record knows: `name` is the normalised username. */
  datatype Ask = Ask(tid: Option<int>, name: Option<string>)

  datatype Answer = Got(row: nat, created: bool) | ValueError | MultipleResultsFound

  function FindId(rows: seq<Row>, tid: int): (r: Option<nat>)
    ensures r.Some? ==> r.value < |rows| && rows[r.value].tid == Some(tid)
    ensures r.None? ==> forall i :: 0 <= i < |rows| ==> rows[i].tid != Some(tid)
  {
    if rows == [] then None
    else if rows[|rows| - 1].tid == Some(tid) then Some(|rows| - 1)
    else FindId(rows[..|rows| - 1], tid)
  }

  function ById(rows: seq<Row>, a: Ask): (r: Option<nat>)
    ensures r.Some? ==> r.value < |rows| && a.tid.Some? && rows[r.value].tid == a.tid
  {
    if a.tid.Some? then FindId(rows, a.tid.value) else None
  }

  function FindName(rows: seq<Row>, name: string): (r: Option<nat>)
    ensures r.Some? ==> r.value < |rows| && rows[r.value].name == Some(name)
    ensures r.None? ==> forall i :: 0 <= i < |rows| ==> rows[i].name != Some(name)
  {
    if rows == [] then None
    else if rows[|rows| - 1].name == Some(name) then Some(|rows| - 1)
    else FindName(rows[..|rows| - 1], name)
  }

  /** Two rows carry the name. The index on names is not unique. */
  predicate Shared(rows: seq<Row>, name: string) {
    exists i, j :: 0 <= i < j < |rows| && rows[i].name == Some(name) && rows[j].name == Some(name)
  }

  function Either<T>(a: Option<T>, b: Option<T>): Option<T> { if a.Some? then a else b }

  /** The row found, with a key that it did not have filled in. */
  function Hit(rows: seq<Row>, i: nat, a: Ask): seq<Row>
    requires i < |rows|
  {
    rows[i := Row(Either(rows[i].tid, a.tid), Either(rows[i].name, a.name))]
  }

  function Resolve(rows: seq<Row>, a: Ask): (seq<Row>, Answer) {
    var found := ById(rows, a);
    if found.Some? then (Hit(rows, found.value, a), Got(found.value, false))
    else if a.name.None? then
      if a.tid.None? then (rows, ValueError) else (rows + [Row(a.tid, None)], Got(|rows|, true))
    else if Shared(rows, a.name.value) then (rows, MultipleResultsFound)
    else
      var named := FindName(rows, a.name.value);
      if named.Some? then (Hit(rows, named.value, a), Got(named.value, false))
      else (rows + [Row(a.tid, a.name)], Got(|rows|, true))
  }

  ghost predicate UnknownId(rows: seq<Row>, a: Ask) {
    a.tid == None || forall i :: 0 <= i < |rows| ==> rows[i].tid != a.tid
  }

  /** Row `i` has the name, and no other has. */
  ghost predicate OnlyNamed(rows: seq<Row>, i: nat, name: Option<string>)
    requires i < |rows|
  {
    rows[i].name == name && forall j :: 0 <= j < |rows| && j != i ==> rows[j].name != name
  }

  class TelegramRepository {
    var rows: seq<Row>

    constructor ()
      ensures rows == []
    {
      rows := [];
    }

    method GetOrCreate(a: Ask) returns (answer: Answer)
      modifies this
      ensures (rows, answer) == Resolve(old(rows), a)
      ensures forall i :: 0 <= i < |old(rows)| && a.tid.Some? && old(rows)[i].tid == a.tid && UniqueIds(old(rows)) ==>
                && answer == Got(i, false)
                && rows == old(rows)[i := Row(a.tid, if old(rows)[i].name == None then a.name else old(rows)[i].name)]
      ensures UnknownId(old(rows), a) && a.name == None ==>
                if a.tid == None then answer == ValueError && rows == old(rows)
                else answer == Got(|old(rows)|, true) && rows == old(rows) + [Row(a.tid, None)]
      ensures UnknownId(old(rows), a) && a.name.Some? ==>
                && ((forall i :: 0 <= i < |old(rows)| ==> old(rows)[i].name != a.name) ==>
                      answer == Got(|old(rows)|, true) && rows == old(rows) + [Row(a.tid, a.name)])
                && (forall i, j :: 0 <= i < j < |old(rows)| && old(rows)[i].name == old(rows)[j].name == a.name ==>
                      answer == MultipleResultsFound && rows == old(rows))
                && (forall i :: 0 <= i < |old(rows)| && OnlyNamed(old(rows), i, a.name) ==>
                      && answer == Got(i, false)
                      && rows == old(rows)[i := Row(if old(rows)[i].tid == None then a.tid else old(rows)[i].tid,
                         a.name)])
    {
      var found := ById(rows, a);
      if found.None? && a.name.Some? {
        if Shared(rows, a.name.value) { return MultipleResultsFound; }
        found := FindName(rows, a.name.value);
      }
      if found.Some? {
        var row := rows[found.value];
        if a.tid.Some? && row.tid.None? { row := row.(tid := a.tid); }
        if a.name.Some? && row.name.None? { row := row.(name := a.name); }
        rows := rows[found.value := row];
        return Got(found.value, false);
      }
      if a.tid.None? && a.name.None? { return ValueError; }
      answer := Got(|rows|, true);
      rows := rows + [Row(a.tid, a.name)];
    }
  }

  // ----- What every resolution keeps -----

  ghost predicate UniqueIds(rows: seq<Row>) {
    forall i, j :: 0 <= i < j < |rows| && rows[i].tid.Some? ==> rows[i].tid != rows[j].tid
  }

  /** Rows stay where they are, and keys once there stay. */
  ghost predicate Grew(rows: seq<Row>, rows': seq<Row>) {
    && |rows| <= |rows'|
    && forall i :: 0 <= i < |rows| ==>
         && (rows[i].tid.Some? ==> rows'[i].tid == rows[i].tid)
         && (rows[i].name.Some? ==> rows'[i].name == rows[i].name)
  }

  lemma {:induction false} ResolveGrows(rows: seq<Row>, a: Ask)
    requires UniqueIds(rows)
    ensures UniqueIds(Resolve(rows, a).0) && Grew(rows, Resolve(rows, a).0)
  {
    hide Shared;
  }

  /** Names stay unique exactly unless a row found by its id takes on a name that another row has. */
  ghost predicate UniqueNames(rows: seq<Row>) { forall n :: !Shared(rows, n) }

  predicate Clash(rows: seq<Row>, a: Ask) {
    var found := ById(rows, a);
    found.Some? && rows[found.value].name.None? && a.name.Some? && FindName(rows, a.name.value).Some?
  }

  lemma {:induction false} NamesStayUnique(rows: seq<Row>, a: Ask)
    requires UniqueNames(rows)
    ensures UniqueNames(Resolve(rows, a).0) <==> !Clash(rows, a)
  {
    var rows' := Resolve(rows, a).0;
    if Clash(rows, a) {
      var i, j := ById(rows, a).value, FindName(rows, a.name.value).value;
      assert rows'[i].name == a.name && rows'[j].name == a.name;
      assert Shared(rows', a.name.value);
    } else {
      forall n ensures !Shared(rows', n) {
        assert !Shared(rows, n);
        forall i, j | 0 <= i < j < |rows'| ensures !(rows'[i].name == Some(n) && rows'[j].name == Some(n)) {
        }
      }
    }
  }

  // ----- A whole batch, and the same batch again -----

  function Run(rows: seq<Row>, asks: seq<Ask>): seq<Row> {
    if asks == [] then rows else Resolve(Run(rows, asks[..|asks| - 1]), asks[|asks| - 1]).0
  }

  lemma {:induction false} RunGrows(rows: seq<Row>, asks: seq<Ask>)
    requires UniqueIds(rows)
    ensures UniqueIds(Run(rows, asks)) && Grew(rows, Run(rows, asks))
  {
    hide Resolve;
    if asks != [] {
      RunGrows(rows, asks[..|asks| - 1]);
      ResolveGrows(Run(rows, asks[..|asks| - 1]), asks[|asks| - 1]);
    }
  }

  /** What the first run leaves for a record, in the rows `t` it ends with. */
  ghost predicate Left(t: seq<Row>, a: Ask, answer: Answer) {
    || ById(t, a).Some?
    || (answer == ValueError && a == Ask(None, None))
    || (answer == MultipleResultsFound && a.name.Some? && Shared(t, a.name.value))
    || (answer.Got? && a.name.Some? &&
        exists j :: 0 <= j < |t| && t[j].name == a.name && (a.tid.Some? ==> t[j].tid.Some?))
  }

  lemma {:induction false} ResolveLeaves(rows: seq<Row>, a: Ask)
    ensures Left(Resolve(rows, a).0, a, Resolve(rows, a).1)
  {
    var rows', answer := Resolve(rows, a).0, Resolve(rows, a).1;
    if answer.Got? {
      assert rows'[answer.row].name == a.name || rows'[answer.row].tid == a.tid || a.name.None?;
      assert a.tid.Some? ==> rows'[answer.row].tid.Some?;
    }
  }

  lemma {:induction false} LeftStays(t: seq<Row>, u: seq<Row>, a: Ask, answer: Answer)
    requires Left(t, a, answer) && Grew(t, u)
    ensures Left(u, a, answer)
  {
    if ById(t, a).Some? {
      var i := ById(t, a).value;
      assert u[i].tid == a.tid;
    } else if answer == MultipleResultsFound {
      var i, j :| 0 <= i < j < |t| && t[i].name == a.name && t[j].name == a.name;
      assert u[i].name == a.name && u[j].name == a.name;
    } else if answer.Got? {
      var j :| 0 <= j < |t| && t[j].name == a.name && (a.tid.Some? ==> t[j].tid.Some?);
      assert u[j].name == a.name;
    }
  }

  /** Over the first run. */
  lemma {:induction false} RunLeaves(rows: seq<Row>, asks: seq<Ask>, q: nat)
    requires UniqueIds(rows) && q < |asks|
    ensures Left(Run(rows, asks), asks[q], Resolve(Run(rows, asks[..q]), asks[q]).1)
    decreases |asks|
  {
    var front, last := asks[..|asks| - 1], asks[|asks| - 1];
    hide Resolve, Left;
    RunGrows(rows, front);
    ResolveGrows(Run(rows, front), last);
    if q == |front| {
      ResolveLeaves(Run(rows, front), last);
    } else {
      assert front[..q] == asks[..q];
      RunLeaves(rows, front, q);
      LeftStays(Run(rows, front), Run(rows, asks), asks[q], Resolve(Run(rows, asks[..q]), asks[q]).1);
    }
  }

  /** The first name that the records have for an id. */
  function FirstName(asks: seq<Ask>, tid: int): Option<string> {
    if asks == [] then None
    else
      var a := asks[|asks| - 1];
      Either(FirstName(asks[..|asks| - 1], tid), if a.tid == Some(tid) then a.name else None)
  }

  function CompletedRow(r: Row, asks: seq<Ask>): Row {
    if r.tid.Some? then r.(name := Either(r.name, FirstName(asks, r.tid.value))) else r
  }

  /** Rows known by id only take the first name that the records have for them. */
  function Completed(t: seq<Row>, asks: seq<Ask>): seq<Row> {
    seq(|t|, i requires 0 <= i < |t| => CompletedRow(t[i], asks))
  }

  lemma {:induction false} CompletedIds(t: seq<Row>, asks: seq<Ask>, a: Ask)
    requires UniqueIds(t)
    ensures ById(Completed(t, asks), a) == ById(t, a)
  {
    hide FirstName;
    var s := Completed(t, asks);
    assert forall i :: 0 <= i < |t| ==> s[i].tid == t[i].tid;
    if ById(t, a).Some? {
      assert s[ById(t, a).value].tid == a.tid;
    }
  }

  lemma FirstNameMore(asks: seq<Ask>, a: Ask, tid: int)
    ensures FirstName(asks + [a], tid) == Either(FirstName(asks, tid), if a.tid == Some(tid) then a.name else None)
  {
    assert (asks + [a])[..|asks|] == asks;
  }

  /** One record of the second run: it fails if its id is not known and two rows carry its
      name, if it failed so before, or if it has no key; and it only completes its row. */
  lemma {:induction false} AgainStep(t: seq<Row>, asks: seq<Ask>, a: Ask, answer: Answer)
    requires UniqueIds(t) && Left(t, a, answer)
    ensures var s := Completed(t, asks);
            && Resolve(s, a).0 == Completed(t, asks + [a])
            && !(Resolve(s, a).1.Got? && Resolve(s, a).1.created)
            && (Resolve(s, a).1 == ValueError <==> a == Ask(None, None))
            && (Resolve(s, a).1 == MultipleResultsFound <==>
                  (ById(t, a).None? && a.name.Some? && Shared(s, a.name.value)))
  {
    var s, s' := Completed(t, asks), Completed(t, asks + [a]);
    CompletedIds(t, asks, a);
    forall tid ensures FirstName(asks + [a], tid) ==
        Either(FirstName(asks, tid), if a.tid == Some(tid) then a.name else None) {
      FirstNameMore(asks, a, tid);
    }
    hide FirstName, Shared;
    if ById(t, a).Some? {
      HitCompletes(t, asks, a);
    } else {
      assert forall i :: 0 <= i < |t| && t[i].tid.Some? ==> t[i].tid != a.tid;
      assert s' == s;
      if a.name.Some? && !Shared(s, a.name.value) { NamedIsSame(t, asks, a, answer); }
    }
  }

  lemma {:induction false} HitCompletes(t: seq<Row>, asks: seq<Ask>, a: Ask)
    requires UniqueIds(t) && ById(t, a).Some?
    ensures Hit(Completed(t, asks), ById(t, a).value, a) == Completed(t, asks + [a])
  {
    var i := ById(t, a).value;
    forall tid ensures FirstName(asks + [a], tid) ==
        Either(FirstName(asks, tid), if a.tid == Some(tid) then a.name else None) {
      FirstNameMore(asks, a, tid);
    }
    hide FirstName;
    var x, y := Hit(Completed(t, asks), i, a), Completed(t, asks + [a]);
    forall k | 0 <= k < |t| ensures x[k] == y[k] {
      if k != i { assert t[k].tid.Some? ==> t[k].tid != t[i].tid; }
    }
  }

  /** A record found by its name alone finds the row it found before, and changes nothing. */
  lemma {:induction false} NamedIsSame(t: seq<Row>, asks: seq<Ask>, a: Ask, answer: Answer)
    requires Left(t, a, answer) && ById(t, a).None? && a.name.Some? && !Shared(Completed(t, asks), a.name.value)
    ensures var s := Completed(t, asks); var named := FindName(s, a.name.value);
            named.Some? && Hit(s, named.value, a) == s
  {
    hide FirstName;
    var s := Completed(t, asks);
    SharedStays(t, asks, a.name.value);
    var j :| 0 <= j < |t| && t[j].name == a.name && (a.tid.Some? ==> t[j].tid.Some?);
    assert s[j].name == a.name;
    var k := FindName(s, a.name.value).value;
    assert k == j;
  }

  lemma {:induction false} SharedStays(t: seq<Row>, asks: seq<Ask>, name: string)
    ensures Shared(t, name) ==> Shared(Completed(t, asks), name)
  {
    if i, j :| 0 <= i < j < |t| && t[i].name == Some(name) && t[j].name == Some(name) {
      var s := Completed(t, asks);
      assert s[i].name == Some(name) && s[j].name == Some(name);
    }
  }

  /** The second run ends where the first did, but for names that rows known by id still lacked. */
  lemma {:induction false} AgainCompletes(rows: seq<Row>, asks: seq<Ask>, q: nat)
    requires UniqueIds(rows) && q <= |asks|
    ensures var t := Run(rows, asks); Run(t, asks[..q]) == Completed(t, asks[..q])
  {
    var t := Run(rows, asks);
    RunGrows(rows, asks);
    if q == 0 {
      assert Completed(t, []) == t;
      assert asks[..0] == [];
    } else {
      AgainCompletes(rows, asks, q - 1);
      RunLeaves(rows, asks, q - 1);
      hide Resolve, Completed, Left;
      assert asks[..q] == asks[..q - 1] + [asks[q - 1]];
      assert asks[..q][..q - 1] == asks[..q - 1];
      AgainStep(t, asks[..q - 1], asks[q - 1], Resolve(Run(rows, asks[..q - 1]), asks[q - 1]).1);
    }
  }

  /** The record's id is not known and its name is carried by two rows, counting the names
      that earlier records give to rows known by id only. */
  predicate FailsAgain(t: seq<Row>, asks: seq<Ask>, q: nat)
    requires q < |asks|
  {
    ById(t, asks[q]).None? && asks[q].name.Some? && Shared(Completed(t, asks[..q]), asks[q].name.value)
  }

  /** When the same records come again, nothing is created, and a record that was found or
      created before fails exactly when its id is not known and its name is carried by two
      rows, counting the names that earlier records give to rows known by id only. */
  lemma {:induction false} SkippedAgainExactly(rows: seq<Row>, asks: seq<Ask>, q: nat)
    requires UniqueIds(rows) && q < |asks|
    ensures var t := Run(rows, asks);
            var first, again := Resolve(Run(rows, asks[..q]), asks[q]).1, Resolve(Run(t, asks[..q]), asks[q]).1;
            && !(again.Got? && again.created)
            && (first.Got? ==>
                  (!again.Got? <==> FailsAgain(t, asks, q)))
  {
    var t := Run(rows, asks);
    RunGrows(rows, asks);
    AgainCompletes(rows, asks, q);
    RunLeaves(rows, asks, q);
    AgainStep(t, asks[..q], asks[q], Resolve(Run(rows, asks[..q]), asks[q]).1);
    hide Resolve, Completed, Shared, Run;
  }

  lemma OneMore(rows: seq<Row>, asks: seq<Ask>, a: Ask)
    ensures Run(rows, asks + [a]) == Resolve(Run(rows, asks), a).0
  {
    assert (asks + [a])[..|asks|] == asks;
  }

  lemma {:induction false} ThreeRows(u: string)
    ensures var r1, r2, t := [Row(Some(1), None)], [Row(Some(1), None), Row(None, Some(u))],
            [Row(Some(1), Some(u)), Row(None, Some(u))];
            && Resolve([], Ask(Some(1), None)) == (r1, Got(0, true))
            && Resolve(r1, Ask(None, Some(u))) == (r2, Got(1, true))
            && Resolve(r2, Ask(Some(1), Some(u))).0 == t
  {
    var r1, r2: seq<Row> := [Row(Some(1), None)], [Row(Some(1), None), Row(None, Some(u))];
    assert r2[..1] == r1 && r1[..0] == [];
    assert [] + [Row(Some(1), None)] == r1 && r1 + [Row(None, Some(u))] == r2;
    assert FindId(r2, 1) == FindId(r1, 1) == Some(0);
    assert !Shared(r1, u);
  }

  lemma {:induction false} TwoRowsAgain(u: string)
    ensures var t := [Row(Some(1), Some(u)), Row(None, Some(u))];
            Resolve(t, Ask(Some(1), None)).0 == t && Resolve(t, Ask(None, Some(u))).1 == MultipleResultsFound
  {
    var t, r: seq<Row> := [Row(Some(1), Some(u)), Row(None, Some(u))], [Row(Some(1), Some(u))];
    assert t[..1] == r;
    assert FindId(t, 1) == FindId(r, 1) == Some(0);
    assert Hit(t, 0, Ask(Some(1), None)) == t;
    assert t[0].name == Some(u) && t[1].name == Some(u);
  }

  /** It happens: a row known by id, one known by name, and a record with both. The name is
      then on two rows, and the record that has only the name fails the second time. */
  lemma {:induction false} NameOnTwoRows(u: string)
    ensures var a, b, c := Ask(Some(1), None), Ask(None, Some(u)), Ask(Some(1), Some(u));
            var t := Run([], [a, b, c]);
            Resolve(Run([], [a]), b).1 == Got(1, true) && Resolve(Run(t, [a]), b).1 == MultipleResultsFound
  {
    var a, b, c := Ask(Some(1), None), Ask(None, Some(u)), Ask(Some(1), Some(u));
    ThreeRows(u);
    TwoRowsAgain(u);
    assert [] + [a] == [a] && [a] + [b] == [a, b] && [a, b] + [c] == [a, b, c];
    OneMore([], [], a);
    OneMore([], [a], b);
    OneMore([], [a, b], c);
    OneMore(Run([], [a, b, c]), [], a);
    hide Resolve;
  }
}
