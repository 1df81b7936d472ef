/** Watch polling: what each poll notifies, and what all polls of a watch notify together. */
module Monitor {

  datatype Activity = NewMessage(id: int) | NewAccount(platform: string)

  /** The stored marker, with its defaults: no message and no platform seen. */
  datatype Marker = Marker(maxId: int, platforms: set<string>)

  function Blank(): Marker { Marker(0, {}) }

  /** `Rows`: the message ids stored for the watched container, in ascending order. */
  datatype TelegramReply = TelegramError(note: string) | NoContainer | Rows(ids: seq<int>)

  datatype PlatformReply = NoCollector | PlatformError(note: string) | Platforms(found: set<string>)

  /** What the collectors answer to one poll. */
  datatype Visit = Visit(telegram: TelegramReply, platforms: PlatformReply)

  /** `sorted` on sets of platforms: any order, every element once. */
  type Order = set<string> -> seq<string>

  ghost predicate Enumerates(order: Order) {
    forall s: set<string> :: Lists(order(s), s)
  }

  ghost predicate Lists(names: seq<string>, s: set<string>) {
    && (forall i :: 0 <= i < |names| ==> names[i] in s)
    && (forall i, j :: 0 <= i < j < |names| ==> names[i] != names[j])
    && (forall p :: p in s ==> Named(names, p))
  }

  ghost predicate Named(names: seq<string>, p: string) { exists i :: 0 <= i < |names| && names[i] == p }

  ghost predicate Ascending(ids: seq<int>) { forall i, j :: 0 <= i < j < |ids| ==> ids[i] < ids[j] }

  // ----- One poll -----

  function NewMessages(ids: seq<int>, mark: int): seq<Activity> {
    if ids == [] then []
    else
      var rest := NewMessages(ids[..|ids| - 1], mark);
      if ids[|ids| - 1] <= mark then rest else rest + [NewMessage(ids[|ids| - 1])]
  }

  function Highest(ids: seq<int>, mark: int): int {
    if ids == [] then mark
    else
      var rest := Highest(ids[..|ids| - 1], mark);
      if ids[|ids| - 1] > rest then ids[|ids| - 1] else rest
  }

  function NewAccounts(names: seq<string>): seq<Activity> {
    if names == [] then [] else NewAccounts(names[..|names| - 1]) + [NewAccount(names[|names| - 1])]
  }

  function FromTelegram(m: Marker, v: Visit): seq<Activity> {
    if v.telegram.Rows? then NewMessages(v.telegram.ids, m.maxId) else []
  }

  function FromPlatforms(m: Marker, v: Visit, order: Order): seq<Activity> {
    if v.platforms.Platforms? then NewAccounts(order(v.platforms.found - m.platforms)) else []
  }

  function Notified(m: Marker, v: Visit, order: Order): seq<Activity> {
    FromTelegram(m, v) + FromPlatforms(m, v, order)
  }

  function After(m: Marker, v: Visit): Marker {
    Marker(if v.telegram.Rows? then Highest(v.telegram.ids, m.maxId) else m.maxId,
           if v.platforms.Platforms? then m.platforms + v.platforms.found else m.platforms)
  }

  function NotesOf(v: Visit): seq<string> {
    (if v.telegram.TelegramError? then [v.telegram.note] else []) +
    (if v.platforms.PlatformError? then [v.platforms.note] else [])
  }

  /** Messages come before accounts. */
  ghost predicate InOrder(activities: seq<Activity>) {
    forall i, j :: 0 <= i < j < |activities| && activities[j].NewMessage? ==> activities[i].NewMessage?
  }

  lemma {:induction false} AllMessages(ids: seq<int>, mark: int)
    ensures forall i :: 0 <= i < |NewMessages(ids, mark)| ==> NewMessages(ids, mark)[i].NewMessage?
  {
    if ids != [] { AllMessages(ids[..|ids| - 1], mark); }
  }

  lemma {:induction false} AllAccounts(names: seq<string>)
    ensures forall i :: 0 <= i < |NewAccounts(names)| ==> NewAccounts(names)[i].NewAccount?
  {
    if names != [] { AllAccounts(names[..|names| - 1]); }
  }

  lemma {:induction false} NotifiedInOrder(m: Marker, v: Visit, order: Order)
    ensures InOrder(Notified(m, v, order))
  {
    if v.telegram.Rows? { AllMessages(v.telegram.ids, m.maxId); }
    if v.platforms.Platforms? { AllAccounts(order(v.platforms.found - m.platforms)); }
  }

  class Watch {
    var marker: Marker
    var lastChecked: int

    constructor ()
      ensures marker == Blank()
    {
      marker, lastChecked := Blank(), 0;
    }

    method Poll(v: Visit, order: Order, now: int) returns (activities: seq<Activity>, notes: seq<string>)
      modifies this
      ensures marker == After(old(marker), v) && lastChecked == now
      ensures activities == Notified(old(marker), v, order) && notes == NotesOf(v)
      ensures marker.maxId >= old(marker).maxId
      ensures marker.maxId == old(marker).maxId || (v.telegram.Rows? && Listed(v.telegram.ids, marker.maxId))
      ensures v.telegram.Rows? ==> forall i :: 0 <= i < |v.telegram.ids| ==> v.telegram.ids[i] <= marker.maxId
      ensures marker.platforms == old(marker).platforms + if v.platforms.Platforms? then v.platforms.found else {}
      ensures InOrder(activities)
      ensures notes == (if v.telegram.TelegramError? then [v.telegram.note] else []) +
                       (if v.platforms.PlatformError? then [v.platforms.note] else [])
    {
      var maxId, first, note := PollTelegram(v);
      var platforms, second, other := PollUsernamePlatforms(v, order);
      if v.telegram.Rows? { HighestBounds(v.telegram.ids, marker.maxId); }
      NotifiedInOrder(marker, v, order);
      marker := Marker(maxId, platforms);
      lastChecked := now;
      activities, notes := first + second, note + other;
    }

    method PollTelegram(v: Visit) returns (maxId: int, activities: seq<Activity>, notes: seq<string>)
      ensures maxId == After(marker, v).maxId && activities == FromTelegram(marker, v)
      ensures notes == if v.telegram.TelegramError? then [v.telegram.note] else []
    {
      maxId, activities, notes := marker.maxId, [], [];
      match v.telegram
      case TelegramError(note) => notes := [note];
      case NoContainer =>
      case Rows(ids) =>
        var seen := marker.maxId;
        for i := 0 to |ids|
          invariant maxId == Highest(ids[..i], seen) && maxId >= seen
          invariant activities == NewMessages(ids[..i], seen)
        {
          assert ids[..i + 1][..i] == ids[..i];
          if ids[i] <= seen { continue; }
          if ids[i] > maxId { maxId := ids[i]; }
          activities := activities + [NewMessage(ids[i])];
        }
        assert ids[..|ids|] == ids;
    }

    method PollUsernamePlatforms(v: Visit, order: Order)
                                 returns (platforms: set<string>, activities: seq<Activity>, notes: seq<string>)
      ensures platforms == After(marker, v).platforms && activities == FromPlatforms(marker, v, order)
      ensures notes == if v.platforms.PlatformError? then [v.platforms.note] else []
    {
      platforms, activities, notes := marker.platforms, [], [];
      match v.platforms
      case NoCollector =>
      case PlatformError(note) => notes := [note];
      case Platforms(found) =>
        var names := order(found - platforms);
        for i := 0 to |names|
          invariant activities == NewAccounts(names[..i])
        {
          assert names[..i + 1][..i] == names[..i];
          activities := activities + [NewAccount(names[i])];
        }
        assert names[..|names|] == names;
        platforms := platforms + found;
    }
  }

  // ----- All polls of a watch -----

  /** The marker before poll `|visits|`. */
  function MarkerAfter(visits: seq<Visit>): Marker {
    if visits == [] then Blank() else After(MarkerAfter(visits[..|visits| - 1]), visits[|visits| - 1])
  }

  /** Everything notified so far. */
  function Log(visits: seq<Visit>, order: Order): seq<Activity> {
    if visits == [] then []
    else
      var front := visits[..|visits| - 1];
      Log(front, order) + Notified(MarkerAfter(front), visits[|visits| - 1], order)
  }

  function Count(log: seq<Activity>, a: Activity): nat {
    if log == [] then 0 else Count(log[..|log| - 1], a) + if log[|log| - 1] == a then 1 else 0
  }

  ghost predicate WellFormed(visits: seq<Visit>) {
    forall k :: 0 <= k < |visits| ==> OrderedRows(visits[k])
  }

  ghost predicate OrderedRows(v: Visit) { v.telegram.Rows? ==> Ascending(v.telegram.ids) }

  ghost predicate Listed(ids: seq<int>, id: int) { exists i :: 0 <= i < |ids| && ids[i] == id }

  ghost predicate Shows(v: Visit, id: int) { v.telegram.Rows? && Listed(v.telegram.ids, id) }

  lemma {:induction false} CountAppend(s: seq<Activity>, t: seq<Activity>, a: Activity)
    ensures Count(s + t, a) == Count(s, a) + Count(t, a)
  {
    if t == [] {
      assert s + t == s;
    } else {
      CountAppend(s, t[..|t| - 1], a);
      assert (s + t)[..|s + t| - 1] == s + t[..|t| - 1];
    }
  }

  lemma {:induction false} ListedAppend(ids: seq<int>, last: int, id: int)
    ensures Listed(ids + [last], id) <==> Listed(ids, id) || id == last
  {
    if Listed(ids, id) {
      var i :| 0 <= i < |ids| && ids[i] == id;
      assert (ids + [last])[i] == id;
    }
    assert (ids + [last])[|ids|] == last;
  }

  lemma {:induction false} HighestBounds(ids: seq<int>, mark: int)
    ensures Highest(ids, mark) >= mark && forall i :: 0 <= i < |ids| ==> ids[i] <= Highest(ids, mark)
    ensures Highest(ids, mark) == mark || Listed(ids, Highest(ids, mark))
  {
    if ids != [] {
      HighestBounds(ids[..|ids| - 1], mark);
      ListedAppend(ids[..|ids| - 1], ids[|ids| - 1], Highest(ids, mark));
      assert ids == ids[..|ids| - 1] + [ids[|ids| - 1]];
    }
  }

  lemma {:induction false} CountMessages(ids: seq<int>, mark: int, id: int)
    requires Ascending(ids)
    ensures Count(NewMessages(ids, mark), NewMessage(id)) == if Listed(ids, id) && id > mark then 1 else 0
  {
    if ids != [] {
      var front, last := ids[..|ids| - 1], ids[|ids| - 1];
      CountMessages(front, mark, id);
      ListedAppend(front, last, id);
      assert ids == front + [last];
      assert Listed(front, last) ==> false;
    }
  }

  lemma {:induction false} NoMessagesAmongAccounts(names: seq<string>, id: int)
    ensures Count(NewAccounts(names), NewMessage(id)) == 0
  {
    if names != [] { NoMessagesAmongAccounts(names[..|names| - 1], id); }
  }

  lemma {:induction false} NoAccountsAmongMessages(ids: seq<int>, mark: int, p: string)
    ensures Count(NewMessages(ids, mark), NewAccount(p)) == 0
  {
    if ids != [] { NoAccountsAmongMessages(ids[..|ids| - 1], mark, p); }
  }

  lemma {:induction false} CountAccounts(names: seq<string>, p: string)
    requires forall i, j :: 0 <= i < j < |names| ==> names[i] != names[j]
    ensures Count(NewAccounts(names), NewAccount(p)) == if Named(names, p) then 1 else 0
  {
    if names != [] {
      var front, last := names[..|names| - 1], names[|names| - 1];
      CountAccounts(front, p);
      if Named(front, p) {
        var i :| 0 <= i < |front| && front[i] == p;
        assert names[i] == p;
      }
      if p == last { assert names[|names| - 1] == p; }
    }
  }

  /** One poll notifies a message exactly when it shows it and it is above the marker. */
  lemma {:induction false} PollCountsMessage(m: Marker, v: Visit, order: Order, id: int)
    requires OrderedRows(v)
    ensures Count(Notified(m, v, order), NewMessage(id)) == if Shows(v, id) && id > m.maxId then 1 else 0
  {
    CountAppend(FromTelegram(m, v), FromPlatforms(m, v, order), NewMessage(id));
    if v.telegram.Rows? { CountMessages(v.telegram.ids, m.maxId, id); }
    if v.platforms.Platforms? { NoMessagesAmongAccounts(order(v.platforms.found - m.platforms), id); }
  }

  lemma {:induction false} PollCountsAccount(m: Marker, v: Visit, order: Order, p: string)
    requires Enumerates(order)
    ensures Count(Notified(m, v, order), NewAccount(p)) ==
            if p in After(m, v).platforms && p !in m.platforms then 1 else 0
  {
    CountAppend(FromTelegram(m, v), FromPlatforms(m, v, order), NewAccount(p));
    if v.telegram.Rows? { NoAccountsAmongMessages(v.telegram.ids, m.maxId, p); }
    if v.platforms.Platforms? {
      var s := v.platforms.found - m.platforms;
      assert Lists(order(s), s);
      CountAccounts(order(s), p);
    }
  }

  lemma {:induction false} AfterGrows(m: Marker, v: Visit)
    ensures m.maxId <= After(m, v).maxId && m.platforms <= After(m, v).platforms
    ensures forall id :: Shows(v, id) ==> id <= After(m, v).maxId
  {
    if v.telegram.Rows? { HighestBounds(v.telegram.ids, m.maxId); }
  }

  /** Markers never regress. */
  lemma {:induction false} MarkersNeverRegress(visits: seq<Visit>, k: nat)
    requires k <= |visits|
    ensures MarkerAfter(visits[..k]).maxId <= MarkerAfter(visits).maxId
    ensures MarkerAfter(visits[..k]).platforms <= MarkerAfter(visits).platforms
  {
    if k == |visits| {
      assert visits[..k] == visits;
    } else {
      var front := visits[..|visits| - 1];
      assert front[..k] == visits[..k];
      MarkersNeverRegress(front, k);
      AfterGrows(MarkerAfter(front), visits[|visits| - 1]);
      hide After;
    }
  }

  /** Over every sequence of polls the marker is the highest positive id shown, or zero. */
  lemma {:induction false} MarkerIsHighest(visits: seq<Visit>)
    ensures MarkerAfter(visits).maxId >= 0
    ensures forall k, id :: 0 <= k < |visits| && Shows(visits[k], id) ==> id <= MarkerAfter(visits).maxId
    ensures var max := MarkerAfter(visits).maxId;
            max == 0 || exists k :: 0 <= k < |visits| && Shows(visits[k], max)
  {
    if visits != [] {
      var front, v := visits[..|visits| - 1], visits[|visits| - 1];
      var before, m := MarkerAfter(front), MarkerAfter(visits);
      MarkerIsHighest(front);
      AfterGrows(before, v);
      if v.telegram.Rows? { HighestBounds(v.telegram.ids, before.maxId); }
      assert forall k :: 0 <= k < |front| ==> visits[k] == front[k];
      assert m.maxId == before.maxId || Shows(visits[|front|], m.maxId);
      hide Shows, MarkerAfter, Highest;
      if m.maxId == before.maxId && before.maxId != 0 {
        var k :| 0 <= k < |front| && Shows(front[k], before.maxId);
        assert Shows(visits[k], m.maxId);
      }
    }
  }

  /** A part that fails is as if it had not been polled. */
  lemma ErrorsChangeNothing(m: Marker, v: Visit, order: Order)
    ensures !v.telegram.Rows? ==> After(m, v).maxId == m.maxId && Notified(m, v, order) == FromPlatforms(m, v, order)
    ensures !v.platforms.Platforms? ==>
              (After(m, v).platforms == m.platforms && Notified(m, v, order) == FromTelegram(m, v))
  {
    assert [] + FromPlatforms(m, v, order) == FromPlatforms(m, v, order);
    assert FromTelegram(m, v) + [] == FromTelegram(m, v);
  }

  lemma OneMore(visits: seq<Visit>, v: Visit, order: Order)
    ensures MarkerAfter(visits + [v]) == After(MarkerAfter(visits), v)
    ensures Log(visits + [v], order) == Log(visits, order) + Notified(MarkerAfter(visits), v, order)
  {
    assert (visits + [v])[..|visits|] == visits;
  }

  /** A poll both of whose parts fail, or have nothing to look at, leaves no trace: all later
      markers and notifications are as if it had not been made. */
  lemma {:induction false} FailedPollLeavesNoTrace(a: seq<Visit>, v: Visit, b: seq<Visit>, order: Order)
    requires !v.telegram.Rows? && !v.platforms.Platforms?
    ensures MarkerAfter(a + [v] + b) == MarkerAfter(a + b) && Log(a + [v] + b, order) == Log(a + b, order)
  {
    hide MarkerAfter, Log;
    if b == [] {
      OneMore(a, v, order);
      assert a + [v] + b == a + [v] && a + b == a;
      hide Highest, NewMessages, NewAccounts;
      assert After(MarkerAfter(a), v) == MarkerAfter(a) && Notified(MarkerAfter(a), v, order) == [];
    } else {
      var front, last := b[..|b| - 1], b[|b| - 1];
      hide After, Notified;
      FailedPollLeavesNoTrace(a, v, front, order);
      OneMore(a + [v] + front, last, order);
      OneMore(a + front, last, order);
      assert a + [v] + b == a + [v] + front + [last] && a + b == a + front + [last];
    }
  }

  /** What was notified is at or below the marker, and was notified once. */
  lemma {:induction false} NotifiedAtMostOnce(visits: seq<Visit>, order: Order, id: int)
    requires WellFormed(visits)
    ensures Count(Log(visits, order), NewMessage(id)) <= 1
    ensures Count(Log(visits, order), NewMessage(id)) == 1 ==> 0 < id <= MarkerAfter(visits).maxId
  {
    if visits != [] {
      var front, v := visits[..|visits| - 1], visits[|visits| - 1];
      NotifiedAtMostOnce(front, order, id);
      AfterGrows(MarkerAfter(front), v);
      MarkersNeverRegress(front, 0);
      CountStep(visits, order, id);
      hide Count, Log, After, Shows;
    }
  }

  ghost predicate Reported(visits: seq<Visit>, p: string) {
    exists k :: 0 <= k < |visits| && visits[k].platforms.Platforms? && p in visits[k].platforms.found
  }

  lemma {:induction false} SeenIsReported(visits: seq<Visit>, p: string)
    ensures p in MarkerAfter(visits).platforms <==> Reported(visits, p)
  {
    if visits != [] {
      var front := visits[..|visits| - 1];
      SeenIsReported(front, p);
      if Reported(front, p) {
        var k :| 0 <= k < |front| && front[k].platforms.Platforms? && p in front[k].platforms.found;
        assert visits[k] == front[k];
      }
    }
  }

  /** A platform is notified exactly once when some poll reported it, and otherwise never. */
  lemma {:induction false} PlatformsAreNotifiedOnce(visits: seq<Visit>, order: Order, p: string)
    requires Enumerates(order)
    ensures Count(Log(visits, order), NewAccount(p)) == if Reported(visits, p) then 1 else 0
  {
    SeenIsReported(visits, p);
    if visits != [] {
      var front, v := visits[..|visits| - 1], visits[|visits| - 1];
      PlatformsAreNotifiedOnce(front, order, p);
      SeenIsReported(front, p);
      AfterGrows(MarkerAfter(front), v);
      PollCountsAccount(MarkerAfter(front), v, order, p);
      CountAppend(Log(front, order), Notified(MarkerAfter(front), v, order), NewAccount(p));
      hide Count, Notified, After, Reported, Enumerates;
    }
  }

  /** Poll `k` is the first to show message `id`. */
  ghost predicate FirstShown(visits: seq<Visit>, k: nat, id: int) {
    k < |visits| && Shows(visits[k], id) && forall j :: 0 <= j < k ==> !Shows(visits[j], id)
  }

  lemma {:induction false} NeverShown(visits: seq<Visit>, order: Order, id: int)
    requires WellFormed(visits) && forall j :: 0 <= j < |visits| ==> !Shows(visits[j], id)
    ensures Count(Log(visits, order), NewMessage(id)) == 0
  {
    if visits != [] {
      var front, v := visits[..|visits| - 1], visits[|visits| - 1];
      NeverShown(front, order, id);
      CountStep(visits, order, id);
      hide Count, Log, Shows;
    }
  }

  /** A message is notified exactly when it was above the marker at the first poll that showed
      it: what arrives below the marker is never notified. */
  lemma {:induction false} NotifiedExactlyWhenAbove(visits: seq<Visit>, order: Order, k: nat, id: int)
    requires WellFormed(visits) && FirstShown(visits, k, id)
    ensures Count(Log(visits, order), NewMessage(id)) == if id > MarkerAfter(visits[..k]).maxId then 1 else 0
  {
    var front, v := visits[..|visits| - 1], visits[|visits| - 1];
    var m := MarkerAfter(front);
    assert front[..k] == visits[..k];
    CountStep(visits, order, id);
    if k == |front| {
      assert front[..k] == front;
      NeverShown(front, order, id);
    } else {
      hide Count, Log, MarkerAfter, Notified, Shows;
      NotifiedExactlyWhenAbove(front, order, k, id);
      FirstIsPassed(front, k, id);
    }
  }

  lemma {:induction false} CountStep(visits: seq<Visit>, order: Order, id: int)
    requires WellFormed(visits) && visits != []
    ensures var front, v := visits[..|visits| - 1], visits[|visits| - 1];
            Count(Log(visits, order), NewMessage(id)) ==
            Count(Log(front, order), NewMessage(id)) + if Shows(v, id) && id > MarkerAfter(front).maxId then 1 else 0
  {
    var front, v := visits[..|visits| - 1], visits[|visits| - 1];
    assert OrderedRows(v);
    PollCountsMessage(MarkerAfter(front), v, order, id);
    CountAppend(Log(front, order), Notified(MarkerAfter(front), v, order), NewMessage(id));
    hide Count, Notified, Shows;
  }

  /** Once shown, a message is at or below the marker. */
  lemma {:induction false} FirstIsPassed(visits: seq<Visit>, k: nat, id: int)
    requires k < |visits| && Shows(visits[k], id)
    ensures id <= MarkerAfter(visits).maxId
  {
    MarkersNeverRegress(visits, k + 1);
    assert visits[..k + 1][..k] == visits[..k];
    AfterGrows(MarkerAfter(visits[..k]), visits[k]);
    hide After, Shows;
  }

  /** Messages with positive ids that some poll showed. */
  ghost predicate Shown(visits: seq<Visit>, id: int) { exists k: nat :: FirstShown(visits, k, id) }

  ghost predicate ArrivesAbove(visits: seq<Visit>, id: int) {
    forall k: nat :: FirstShown(visits, k, id) ==> id > MarkerAfter(visits[..k]).maxId
  }

  ghost predicate IsNotified(visits: seq<Visit>, order: Order, id: int) {
    Count(Log(visits, order), NewMessage(id)) == 1
  }

  /** The notifications are exactly the positive ids that were shown, once each, if and only
      if every such id was above the marker when it was first shown. */
  lemma {:induction false} NothingMissedExactly(visits: seq<Visit>, order: Order)
    requires WellFormed(visits)
    ensures (forall id :: IsNotified(visits, order, id) <==> id > 0 && Shown(visits, id)) <==>
            (forall id :: id > 0 && Shown(visits, id) ==> ArrivesAbove(visits, id))
  {
    hide Log, Count, FirstShown, MarkerAfter;
    forall id ensures IsNotified(visits, order, id) <==> id > 0 && Shown(visits, id) && ArrivesAbove(visits, id) {
      NotifiedIffArrives(visits, order, id);
    }
    hide ArrivesAbove, Shown, IsNotified;
  }

  lemma {:induction false} NotifiedIffArrives(visits: seq<Visit>, order: Order, id: int)
    requires WellFormed(visits)
    ensures IsNotified(visits, order, id) <==> id > 0 && Shown(visits, id) && ArrivesAbove(visits, id)
  {
    NotifiedAtMostOnce(visits, order, id);
    ShownOrNever(visits, id);
    if Shown(visits, id) {
      var k: nat :| FirstShown(visits, k, id);
      NotifiedExactlyWhenAbove(visits, order, k, id);
      forall j: nat | FirstShown(visits, j, id) ensures j == k { FirstIsOne(visits, j, k, id); }
    } else {
      NeverShown(visits, order, id);
    }
    hide Count, Log, MarkerAfter, FirstShown;
  }

  lemma FirstIsOne(visits: seq<Visit>, j: nat, k: nat, id: int)
    requires FirstShown(visits, j, id) && FirstShown(visits, k, id)
    ensures j == k
  {
    hide Shows;
  }

  lemma {:induction false} ShownOrNever(visits: seq<Visit>, id: int)
    ensures Shown(visits, id) || forall j :: 0 <= j < |visits| ==> !Shows(visits[j], id)
  {
    if visits != [] {
      var front := visits[..|visits| - 1];
      ShownOrNever(front, id);
      hide Shows;
      if Shown(front, id) {
        var k: nat :| FirstShown(front, k, id);
        assert FirstShown(visits, k, id) by {
          assert visits[k] == front[k];
          assert forall j :: 0 <= j < k ==> visits[j] == front[j];
        }
      } else if Shows(visits[|front|], id) {
        assert forall j :: 0 <= j < |front| ==> visits[j] == front[j];
        assert FirstShown(visits, |front|, id);
      } else {
        assert forall j :: 0 <= j < |front| ==> visits[j] == front[j];
      }
    }
  }

  /** A message that shows up below the marker is missed for good. */
  lemma {:induction false} LateMessageIsMissed(order: Order)
    ensures var visits := [Visit(Rows([5]), NoCollector), Visit(Rows([3, 5]), NoCollector)];
            Shown(visits, 3) && !IsNotified(visits, order, 3)
  {
    var first, second := Visit(Rows([5]), NoCollector), Visit(Rows([3, 5]), NoCollector);
    var visits := [first, second];
    assert visits[..1] == [first];
    assert [first][..0] == [];
    assert [5][..0] == [];
    assert Highest([5], 0) == 5;
    assert MarkerAfter([first]).maxId == 5;
    assert [3, 5][0] == 3;
    assert !Listed([5], 3);
    assert FirstShown(visits, 1, 3);
    NotifiedExactlyWhenAbove(visits, order, 1, 3);
  }
}
