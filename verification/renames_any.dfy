/** Any stream of records in any cut into notification buffers: exactly when the emitted events lead to
    the same names as the records (internal/watch/winwatcher_windows.go). */
module AnyRecords {
  import opened Sequences
  import opened Renames

  /** A record, or the end of a buffer. */
  datatype Item = R(rec: Rec) | Cut

  function BufferItems(buffer: seq<Rec>): seq<Item> {
    seq(|buffer|, i requires 0 <= i < |buffer| => R(buffer[i]))
  }

  function Items(buffers: seq<seq<Rec>>): seq<Item> {
    if buffers == [] then []
    else Items(buffers[..|buffers| - 1]) + BufferItems(buffers[|buffers| - 1]) + [Cut]
  }

  // ---- The scan, item by item ----

  function Pending(items: seq<Item>): string {
    if items == [] then ""
    else
      match items[|items| - 1]
      case R(r) => Waits(Pending(items[..|items| - 1]), r)
      case Cut => ""
  }

  function ItemEvents(pending: string, it: Item): seq<RawEvent> {
    match it
    case R(r) => Emits(pending, r)
    case Cut => Flush(pending)
  }

  function Scan(items: seq<Item>): seq<RawEvent> {
    if items == [] then []
    else Scan(items[..|items| - 1]) + ItemEvents(Pending(items[..|items| - 1]), items[|items| - 1])
  }

  function ReplayItems(names: set<FullPath>, items: seq<Item>): set<FullPath> {
    if items == [] then names
    else
      var before := ReplayItems(names, items[..|items| - 1]);
      match items[|items| - 1]
      case R(r) => RecordOn(before, r)
      case Cut => before
  }

  lemma ScanNext(items: seq<Item>, it: Item)
    ensures Scan(items + [it]) == Scan(items) + ItemEvents(Pending(items), it)
    ensures Pending(items + [it]) == if it.Cut? then "" else Waits(Pending(items), it.rec)
  {
    assert (items + [it])[..|items|] == items;
  }

  lemma ReplayItemsNext(names: set<FullPath>, items: seq<Item>, it: Item)
    ensures ReplayItems(names, items + [it])
            == if it.Cut? then ReplayItems(names, items) else RecordOn(ReplayItems(names, items), it.rec)
  {
    assert (items + [it])[..|items|] == items;
  }

  lemma ItemsNext(before: seq<Item>, buffer: seq<Rec>)
    requires buffer != []
    ensures before + BufferItems(buffer)
            == before + BufferItems(buffer[..|buffer| - 1]) + [R(buffer[|buffer| - 1])]
  {
  }

  lemma {:induction false} ScanBuffer(before: seq<Item>, buffer: seq<Rec>)
    requires Pending(before) == ""
    ensures Scan(before + BufferItems(buffer)) == Scan(before) + Emitted("", buffer)
    ensures Pending(before + BufferItems(buffer)) == WaitsAfter("", buffer)
    decreases |buffer|
  {
    if buffer == [] {
      assert before + BufferItems(buffer) == before;
    } else {
      var front, r := buffer[..|buffer| - 1], buffer[|buffer| - 1];
      ScanBuffer(before, front);
      ScanNext(before + BufferItems(front), R(r));
      ItemsNext(before, buffer);
      Reassociate(Scan(before), Emitted("", front), Emits(WaitsAfter("", front), r));
    }
  }

  lemma {:induction false} ReplayBuffer(names: set<FullPath>, before: seq<Item>, buffer: seq<Rec>)
    ensures ReplayItems(names, before + BufferItems(buffer)) == ReplayRecords(ReplayItems(names, before), buffer)
    decreases |buffer|
  {
    if buffer == [] {
      assert before + BufferItems(buffer) == before;
    } else {
      var front, r := buffer[..|buffer| - 1], buffer[|buffer| - 1];
      ReplayBuffer(names, before, front);
      ReplayItemsNext(names, before + BufferItems(front), R(r));
      ItemsNext(before, buffer);
    }
  }

  /** The items stand for the buffers: their scan is what is emitted, their replay that of the records. */
  lemma {:induction false} ItemsStandFor(names: set<FullPath>, buffers: seq<seq<Rec>>)
    ensures Scan(Items(buffers)) == StreamEvents(buffers) && Pending(Items(buffers)) == ""
    ensures ReplayItems(names, Items(buffers)) == ReplayRecords(names, Flat(buffers))
  {
    if buffers != [] {
      var front, last := buffers[..|buffers| - 1], buffers[|buffers| - 1];
      ItemsStandFor(names, front);
      ScanBuffer(Items(front), last);
      ReplayBuffer(names, Items(front), last);
      ScanNext(Items(front) + BufferItems(last), Cut);
      ReplayItemsNext(names, Items(front) + BufferItems(last), Cut);
      Reassociate(StreamEvents(front), Emitted("", last), Flush(WaitsAfter("", last)));
      ReplayRecordsTwice(names, Flat(front), last);
    }
  }

  // ---- What the items say about a name ----

  predicate OldNameAt(items: seq<Item>, k: int, a: FullPath) {
    0 <= k < |items| && items[k] == R(Rec(OldName, a))
  }

  predicate RemovedAt(items: seq<Item>, k: int, a: FullPath) {
    0 <= k < |items| && items[k] == R(Rec(Removed, a))
  }

  predicate AddedAt(items: seq<Item>, k: int, a: FullPath) {
    0 <= k < |items| && items[k] == R(Rec(Added, a))
  }

  /** A name appears: added, or as a new name. */
  predicate Appears(items: seq<Item>, k: int, a: FullPath) {
    AddedAt(items, k, a) || (0 <= k < |items| && items[k] == R(Rec(NewName, a)))
  }

  /** What an old name waits for: a new name, another old name, or the end of the buffer. */
  predicate EndsWait(it: Item) {
    it.Cut? || it.rec.action.OldName? || it.rec.action.NewName?
  }

  /** From `k` on nothing ends a wait before `e`. */
  predicate WaitsUntil(items: seq<Item>, k: int, e: int) {
    0 <= k < e <= |items| && forall i :: k < i < e ==> !EndsWait(items[i])
  }

  /** The removal that old name `a` at `k` stands for is emitted at `e`: with its pair, or by the end of the
      buffer. */
  predicate TakenAt(items: seq<Item>, k: int, e: int, a: FullPath) {
    && OldNameAt(items, k, a) && WaitsUntil(items, k, e) && e < |items|
    && EndsWait(items[e]) && !IsOldName(items[e])
  }

  predicate IsOldName(it: Item) {
    it.R? && it.rec.action.OldName?
  }

  /** Another old name comes first: the removal is never emitted. */
  predicate HiddenAt(items: seq<Item>, k: int, e: int, a: FullPath) {
    OldNameAt(items, k, a) && WaitsUntil(items, k, e) && e < |items| && IsOldName(items[e])
  }

  /** A removal of `a` is emitted after item `i`. */
  predicate Goes(items: seq<Item>, i: int, a: FullPath) {
    || (exists k :: i < k < |items| && RemovedAt(items, k, a))
    || (exists k, e :: 0 <= k < |items| && i < e < |items| && TakenAt(items, k, e, a))
  }

  /** By the events `a` is there in the end: it was there or appeared, and no removal was emitted since. */
  predicate Stays(names: set<FullPath>, items: seq<Item>, a: FullPath) {
    (a in names && !Goes(items, -1, a)) || exists j :: 0 <= j < |items| && Appears(items, j, a) && !Goes(items, j, a)
  }

  // ---- The events ----

  /** The old name that waits at the end, if any. */
  lemma {:induction false} WhoWaits(items: seq<Item>, k: int, a: FullPath)
    requires OldNameAt(items, k, a)
    ensures WaitsUntil(items, k, |items|) ==> Pending(items) == a
    decreases |items|
  {
    var front := items[..|items| - 1];
    if k < |front| && WaitsUntil(items, k, |items|) {
      assert WaitsUntil(front, k, |front|) && !EndsWait(items[|items| - 1]);
      WhoWaits(front, k, a);
    }
  }

  lemma {:induction false} SomeoneWaits(items: seq<Item>) returns (k: int)
    requires Pending(items) != ""
    ensures OldNameAt(items, k, Pending(items)) && WaitsUntil(items, k, |items|)
    decreases |items|
  {
    var front, it := items[..|items| - 1], items[|items| - 1];
    if IsOldName(it) {
      k := |items| - 1;
    } else {
      k := SomeoneWaits(front);
    }
  }

  /** The last item emits the removal of `a`. */
  predicate Takes(items: seq<Item>, it: Item, a: FullPath) {
    it == R(Rec(Removed, a)) || (Pending(items) == a && EndsWait(it) && !IsOldName(it))
  }

  lemma TakenNext(items: seq<Item>, it: Item, k: int, e: int, a: FullPath)
    ensures e < |items| ==> (TakenAt(items + [it], k, e, a) <==> TakenAt(items, k, e, a))
    ensures e == |items| ==>
      (TakenAt(items + [it], k, e, a) <==>
         OldNameAt(items, k, a) && WaitsUntil(items, k, e) && EndsWait(it) && !IsOldName(it))
  {
    var more := items + [it];
    assert forall i :: 0 <= i < |items| ==> more[i] == items[i];
  }

  lemma GoesNext(items: seq<Item>, it: Item, i: int, a: FullPath)
    requires i < |items|
    ensures Goes(items + [it], i, a) <==> Goes(items, i, a) || Takes(items, it, a)
  {
    var more, n := items + [it], |items|;
    forall k, e ensures TakenAt(items, k, e, a) ==> TakenAt(more, k, e, a) {
      TakenNext(items, it, k, e, a);
    }
    if Takes(items, it, a) {
      if it == R(Rec(Removed, a)) {
        assert RemovedAt(more, n, a);
      } else {
        var k := SomeoneWaits(items);
        TakenNext(items, it, k, n, a);
        assert TakenAt(more, k, n, a);
      }
    } else if Goes(more, i, a) {
      StillGoes(items, it, i, a);
    }
    assert forall k :: RemovedAt(items, k, a) ==> RemovedAt(more, k, a);
  }

  lemma StillGoes(items: seq<Item>, it: Item, i: int, a: FullPath)
    requires Goes(items + [it], i, a) && !Takes(items, it, a)
    ensures Goes(items, i, a)
  {
    var more, n := items + [it], |items|;
    if k :| i < k < |more| && RemovedAt(more, k, a) {
      assert RemovedAt(items, k, a);
    } else {
      var k, e :| 0 <= k < |more| && i < e < |more| && TakenAt(more, k, e, a);
      TakenNext(items, it, k, e, a);
      if e == n {
        WhoWaits(items, k, a);
        assert false;
      }
      assert TakenAt(items, k, e, a);
    }
  }

  lemma StaysNext(names: set<FullPath>, items: seq<Item>, it: Item, a: FullPath)
    ensures Stays(names, items + [it], a) <==>
      Appears([it], 0, a) || (Stays(names, items, a) && !Takes(items, it, a))
  {
    var more, n := items + [it], |items|;
    forall i | -1 <= i < n ensures Goes(more, i, a) <==> Goes(items, i, a) || Takes(items, it, a) {
      GoesNext(items, it, i, a);
    }
    forall j | 0 <= j < n ensures Appears(more, j, a) <==> Appears(items, j, a) {
    }
    assert Appears(more, n, a) <==> Appears([it], 0, a);
    assert !Goes(more, n, a);
  }

  /** An item, on one name. */
  lemma EventsNext(names: set<FullPath>, items: seq<Item>, it: Item, a: FullPath)
    ensures a in Replay(names, Scan(items + [it])) <==>
      Appears([it], 0, a) || (a in Replay(names, Scan(items)) && !Takes(items, it, a))
  {
    ScanNext(items, it);
    ReplayTwice(names, Scan(items), ItemEvents(Pending(items), it));
    OnOneName(Replay(names, Scan(items)), Pending(items), it, a);
  }

  lemma OnOneName(names: set<FullPath>, pending: string, it: Item, a: FullPath)
    ensures a in Replay(names, ItemEvents(pending, it)) <==>
      Appears([it], 0, a)
      || (a in names && it != R(Rec(Removed, a)) && !(pending == a && EndsWait(it) && !IsOldName(it)))
  {
    var more := ItemEvents(pending, it);
    assert more != [] ==> more[..0] == [];
  }

  /** The emitted events leave exactly those names that stay. */
  lemma {:induction false} EventsLeave(names: set<FullPath>, items: seq<Item>, a: FullPath)
    ensures a in Replay(names, Scan(items)) <==> Stays(names, items, a)
  {
    if items != [] {
      var front, it := items[..|items| - 1], items[|items| - 1];
      EventsLeave(names, front, a);
      assert items == front + [it];
      EventsNext(names, front, it, a);
      StaysNext(names, front, it, a);
    }
  }

  // ---- The records ----

  predicate MentionedAt(items: seq<Item>, k: int, a: FullPath) {
    0 <= k < |items| && items[k].R? && Affects(items[k].rec, a)
  }

  /** The last item that says anything about the presence of `a`. */
  predicate LastWord(items: seq<Item>, k: int, a: FullPath) {
    MentionedAt(items, k, a) && forall i :: k < i < |items| ==> !MentionedAt(items, i, a)
  }

  lemma {:induction false} RecordsLeave(names: set<FullPath>, items: seq<Item>, a: FullPath) returns (k: int)
    ensures k < 0 ==> (forall i :: !MentionedAt(items, i, a)) && (a in ReplayItems(names, items) <==> a in names)
    ensures k >= 0 ==> LastWord(items, k, a) && (a in ReplayItems(names, items) <==> Appears(items, k, a))
    decreases |items|
  {
    k := -1;
    if items != [] {
      var n := |items| - 1;
      var front := items[..n];
      k := RecordsLeave(names, front, a);
      assert forall i :: 0 <= i < n ==> (MentionedAt(items, i, a) <==> MentionedAt(front, i, a));
      if MentionedAt(items, n, a) {
        k := n;
      }
    }
  }

  // ---- Where they differ ----

  /** The last word about `a` is an old name that is never taken, and by what came before `a` stays. */
  predicate LeftBehind(names: set<FullPath>, items: seq<Item>, a: FullPath) {
    Stays(names, items, a) && exists k, e :: 0 <= k < e < |items| && HiddenAt(items, k, e, a) && LastWord(items, k, a)
  }

  /** The last word about `a` is that it is added, while an old name `a` waits to be taken. */
  predicate TakenAway(items: seq<Item>, a: FullPath) {
    exists k, j, e :: 0 <= k < j < e < |items|
                      && AddedAt(items, j, a) && LastWord(items, j, a) && TakenAt(items, k, e, a)
  }

  /** In a cut stream every wait ends. */
  lemma WaitEnds(items: seq<Item>, k: int) returns (e: int)
    requires 0 <= k < |items| - 1 && items[|items| - 1].Cut?
    ensures WaitsUntil(items, k, e) && e < |items| && EndsWait(items[e])
  {
    e := k + 1;
    while !EndsWait(items[e])
      invariant WaitsUntil(items, k, e) && e < |items|
      decreases |items| - e
    {
      e := e + 1;
    }
  }

  lemma GoesEarlier(items: seq<Item>, i: int, j: int, a: FullPath)
    requires i <= j && Goes(items, j, a)
    ensures Goes(items, i, a)
  {
    if k :| j < k < |items| && RemovedAt(items, k, a) {
    } else {
      var k, e :| 0 <= k < |items| && j < e < |items| && TakenAt(items, k, e, a);
      assert i < e;
    }
  }

  lemma AppearsBefore(items: seq<Item>, k: int, j: int, a: FullPath)
    requires LastWord(items, k, a) && Appears(items, j, a)
    ensures j <= k
  {
    assert MentionedAt(items, j, a);
  }

  /** A name that goes after its last word, or with it, does not stay. */
  lemma GoesLast(names: set<FullPath>, items: seq<Item>, k: int, a: FullPath)
    requires LastWord(items, k, a) && (Goes(items, k, a) || RemovedAt(items, k, a))
    ensures !Stays(names, items, a)
  {
    if Goes(items, k, a) {
      GoesEarlier(items, -1, k, a);
      forall j | Appears(items, j, a) ensures Goes(items, j, a) {
        AppearsBefore(items, k, j, a);
        GoesEarlier(items, j, k, a);
      }
    } else {
      forall j | Appears(items, j, a) ensures j < k && Goes(items, j, a) {
        AppearsBefore(items, k, j, a);
      }
    }
  }

  /** Nothing goes after a last word that is not an old name, but what a wait that began before takes. */
  lemma GoesAfterLast(items: seq<Item>, k: int, a: FullPath)
    requires LastWord(items, k, a) && !OldNameAt(items, k, a)
    ensures Goes(items, k, a) <==> exists i, e :: 0 <= i < k < e < |items| && TakenAt(items, i, e, a)
  {
    if Goes(items, k, a) {
      forall i | RemovedAt(items, i, a) ensures i <= k {
        assert MentionedAt(items, i, a);
      }
      var i, e :| 0 <= i < |items| && k < e < |items| && TakenAt(items, i, e, a);
      assert MentionedAt(items, i, a);
    } else if i, e :| 0 <= i < k < e < |items| && TakenAt(items, i, e, a) {
      assert Goes(items, k, a);
    }
  }

  lemma AppearedLast(names: set<FullPath>, items: seq<Item>, k: int, a: FullPath)
    requires LastWord(items, k, a) && Appears(items, k, a)
    ensures Stays(names, items, a) <==> !TakenAway(items, a)
  {
    GoesAfterLast(items, k, a);
    if Goes(items, k, a) {
      GoesLast(names, items, k, a);
      var i, e :| 0 <= i < k < e < |items| && TakenAt(items, i, e, a);
      assert AddedAt(items, k, a);
    } else {
      forall j | LastWord(items, j, a) ensures j == k {
        OneLastWord(items, k, j, a);
      }
    }
  }

  /** There is one last word. */
  lemma OneLastWord(items: seq<Item>, k: int, j: int, a: FullPath)
    requires LastWord(items, k, a) && LastWord(items, j, a)
    ensures j == k
  {
  }

  lemma NotTakenAway(items: seq<Item>, k: int, a: FullPath)
    requires LastWord(items, k, a) && !AddedAt(items, k, a)
    ensures !TakenAway(items, a)
  {
    forall j | LastWord(items, j, a) ensures j == k {
      OneLastWord(items, k, j, a);
    }
  }

  lemma NotLeftBehind(names: set<FullPath>, items: seq<Item>, k: int, a: FullPath)
    requires LastWord(items, k, a) && !OldNameAt(items, k, a)
    ensures !LeftBehind(names, items, a)
  {
    forall j | LastWord(items, j, a) ensures j == k {
      OneLastWord(items, k, j, a);
    }
  }

  lemma OldNameLast(names: set<FullPath>, items: seq<Item>, k: int, a: FullPath)
    requires LastWord(items, k, a) && OldNameAt(items, k, a) && items[|items| - 1].Cut?
    ensures Stays(names, items, a) <==> LeftBehind(names, items, a)
  {
    var e := WaitEnds(items, k);
    if IsOldName(items[e]) {
      assert HiddenAt(items, k, e, a);
    } else {
      assert TakenAt(items, k, e, a);
      assert Goes(items, k, a);
      GoesLast(names, items, k, a);
    }
  }

  lemma NeverMentioned(names: set<FullPath>, items: seq<Item>, a: FullPath)
    requires forall i :: !MentionedAt(items, i, a)
    ensures (Stays(names, items, a) <==> a in names) && !LeftBehind(names, items, a) && !TakenAway(items, a)
  {
    forall i ensures !Appears(items, i, a) && !RemovedAt(items, i, a) && !OldNameAt(items, i, a) {
      assert !MentionedAt(items, i, a);
    }
  }

  lemma DiffersAt(names: set<FullPath>, items: seq<Item>, a: FullPath)
    requires items != [] && items[|items| - 1].Cut?
    ensures (a in ReplayItems(names, items) <==> Stays(names, items, a))
            <==> !LeftBehind(names, items, a) && !TakenAway(items, a)
  {
    var k := RecordsLeave(names, items, a);
    if k < 0 {
      NeverMentioned(names, items, a);
    } else if OldNameAt(items, k, a) {
      OldNameLast(names, items, k, a);
      NotTakenAway(items, k, a);
    } else if RemovedAt(items, k, a) {
      GoesLast(names, items, k, a);
      NotTakenAway(items, k, a);
      NotLeftBehind(names, items, k, a);
    } else {
      AppearedLast(names, items, k, a);
      NotLeftBehind(names, items, k, a);
    }
  }

  /** However any records are cut into buffers, the events lead to the same names as the records exactly if
      no name is left behind by a hidden old name that is its last word, and none that is added back, last,
      during its own wait is taken away. */
  lemma EventsAgreeExactly(names: set<FullPath>, buffers: seq<seq<Rec>>)
    ensures Replay(names, StreamEvents(buffers)) == ReplayRecords(names, Flat(buffers)) <==>
      forall a: FullPath :: !LeftBehind(names, Items(buffers), a) && !TakenAway(Items(buffers), a)
  {
    var items := Items(buffers);
    ItemsStandFor(names, buffers);
    forall a: FullPath ensures (a in ReplayRecords(names, Flat(buffers)) <==> a in Replay(names, StreamEvents(buffers)))
                       <==> !LeftBehind(names, items, a) && !TakenAway(items, a)
    {
      EventsLeave(names, items, a);
      if items != [] {
        DiffersAt(names, items, a);
      }
    }
  }
}
