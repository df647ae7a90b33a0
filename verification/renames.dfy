/** Pairing the two halves of a rename across notification buffers
    (internal/watch/winwatcher_windows.go). */
module Renames {
  import opened Sequences

  /** A full path, root included: never the empty string that stands for "no pending old name". */
  type FullPath = s: string | s != "" witness "/"

  datatype Action = OldName | NewName | Added | Removed | Modified | Other

  /** A FILE_NOTIFY_INFORMATION record. */
  datatype Rec = Rec(action: Action, full: FullPath)

  datatype RawEvent = Create(path: FullPath) | Modify(path: FullPath) | Remove(path: FullPath)
                    | Rename(oldPath: FullPath, path: FullPath)

  // ---- What is emitted ----

  /** The old name that waits for its pair after a record; "" for none. */
  function Waits(pending: string, r: Rec): string {
    match r.action
    case OldName => r.full
    case NewName => ""
    case _ => pending
  }

  /** The events of one record, given the old name that waits. */
  function Emits(pending: string, r: Rec): seq<RawEvent> {
    match r.action
    case NewName => [if pending != "" then Rename(pending, r.full) else Create(r.full)]
    case Added => [Create(r.full)]
    case Removed => [Remove(r.full)]
    case Modified => [Modify(r.full)]
    case _ => []
  }

  function WaitsAfter(pending: string, records: seq<Rec>): string {
    if records == [] then pending
    else Waits(WaitsAfter(pending, records[..|records| - 1]), records[|records| - 1])
  }

  function Emitted(pending: string, records: seq<Rec>): seq<RawEvent> {
    if records == [] then []
    else
      var front := records[..|records| - 1];
      Emitted(pending, front) + Emits(WaitsAfter(pending, front), records[|records| - 1])
  }

  /** What the end of a buffer adds: an old name left over is flushed as a removal. */
  function Flush(pending: string): seq<RawEvent> {
    if pending == "" then [] else [Remove(pending)]
  }

  function BufferEvents(pending: string, buffer: seq<Rec>): seq<RawEvent> {
    Emitted(pending, buffer) + Flush(WaitsAfter(pending, buffer))
  }

  function StreamEvents(buffers: seq<seq<Rec>>): seq<RawEvent> {
    if buffers == [] then []
    else StreamEvents(buffers[..|buffers| - 1]) + BufferEvents("", buffers[|buffers| - 1])
  }

  class RecursiveDirWatcher {
    var pendingOldName: string
    var events: seq<RawEvent>

    constructor ()
      ensures pendingOldName == "" && events == []
    {
      pendingOldName, events := "", [];
    }

    method HandleAction(action: Action, full: FullPath)
      modifies this
      ensures pendingOldName == Waits(old(pendingOldName), Rec(action, full))
      ensures events == old(events) + Emits(old(pendingOldName), Rec(action, full))
    {
      match action
      case OldName =>
        pendingOldName := full;
      case NewName =>
        if pendingOldName != "" {
          var oldName := pendingOldName;
          pendingOldName := "";
          events := events + [Rename(oldName, full)];
        } else {
          events := events + [Create(full)];
        }
      case Added =>
        events := events + [Create(full)];
      case Removed =>
        events := events + [Remove(full)];
      case Modified =>
        events := events + [Modify(full)];
      case Other =>
    }

    /** One completed notification buffer; afterwards no old name waits. */
    method ParseAndEmit(buffer: seq<Rec>)
      requires buffer != []
      modifies this
      ensures pendingOldName == "" && events == old(events) + BufferEvents(old(pendingOldName), buffer)
    {
      var i := 0;
      while i < |buffer|
        invariant i <= |buffer|
        invariant pendingOldName == WaitsAfter(old(pendingOldName), buffer[..i])
        invariant events == old(events) + Emitted(old(pendingOldName), buffer[..i])
      {
        assert buffer[..i + 1][..i] == buffer[..i];
        HandleAction(buffer[i].action, buffer[i].full);
        i := i + 1;
      }
      assert buffer[..|buffer|] == buffer;
      if pendingOldName != "" {
        events := events + [Remove(pendingOldName)];
        pendingOldName := "";
      }
    }
  }

  // ---- Replaying on a set of names ----

  function RecordOn(names: set<FullPath>, r: Rec): set<FullPath> {
    match r.action
    case OldName => names - {r.full}
    case Removed => names - {r.full}
    case NewName => names + {r.full}
    case Added => names + {r.full}
    case _ => names
  }

  function ReplayRecords(names: set<FullPath>, records: seq<Rec>): set<FullPath> {
    if records == [] then names
    else RecordOn(ReplayRecords(names, records[..|records| - 1]), records[|records| - 1])
  }

  function EventOn(names: set<FullPath>, e: RawEvent): set<FullPath> {
    match e
    case Create(p) => names + {p}
    case Remove(p) => names - {p}
    case Rename(o, p) => names - {o} + {p}
    case Modify(_) => names
  }

  function Replay(names: set<FullPath>, events: seq<RawEvent>): set<FullPath> {
    if events == [] then names
    else EventOn(Replay(names, events[..|events| - 1]), events[|events| - 1])
  }

  function Flat(buffers: seq<seq<Rec>>): seq<Rec> {
    if buffers == [] then [] else Flat(buffers[..|buffers| - 1]) + buffers[|buffers| - 1]
  }

  /** After an old name comes a new name, or nothing. */
  predicate Paired(records: seq<Rec>) {
    forall i :: 0 <= i < |records| - 1 && records[i].action.OldName? ==> records[i + 1].action.NewName?
  }

  lemma {:induction false} ReplayTwice(names: set<FullPath>, a: seq<RawEvent>, b: seq<RawEvent>)
    ensures Replay(names, a + b) == Replay(Replay(names, a), b)
  {
    if b == [] {
      assert a + b == a;
    } else {
      assert (a + b)[..|a + b| - 1] == a + b[..|b| - 1];
      ReplayTwice(names, a, b[..|b| - 1]);
    }
  }

  lemma {:induction false} ReplayRecordsTwice(names: set<FullPath>, a: seq<Rec>, b: seq<Rec>)
    ensures ReplayRecords(names, a + b) == ReplayRecords(ReplayRecords(names, a), b)
  {
    if b == [] {
      assert a + b == a;
    } else {
      assert (a + b)[..|a + b| - 1] == a + b[..|b| - 1];
      ReplayRecordsTwice(names, a, b[..|b| - 1]);
    }
  }

  predicate EndsInOldName(records: seq<Rec>) {
    records != [] && records[|records| - 1].action.OldName?
  }

  lemma {:induction false} OnlyLastWaits(records: seq<Rec>)
    requires Paired(records)
    ensures WaitsAfter("", records) == if EndsInOldName(records) then records[|records| - 1].full else ""
  {
    if records != [] {
      OnlyLastWaits(records[..|records| - 1]);
      assert EndsInOldName(records[..|records| - 1]) ==> records[|records| - 2].action.OldName?;
    }
  }

  /** Half-way through a buffer, the events are behind the records by the old name that waits. */
  lemma {:induction false} ScanReplays(names: set<FullPath>, records: seq<Rec>)
    requires Paired(records)
    ensures ReplayRecords(names, records) == Replay(names, BufferEvents("", records))
  {
    if records != [] {
      var front, r := records[..|records| - 1], records[|records| - 1];
      ScanReplays(names, front);
      OnlyLastWaits(front);
      var before := WaitsAfter("", front);
      var events, more := Emitted("", front), Emits(before, r);
      assert EndsInOldName(front) ==> records[|front| - 1].action.OldName?;
      ReplayTwice(names, events, Flush(before));
      ReplayTwice(names, events, more);
      ReplayTwice(names, events + more, Flush(WaitsAfter("", records)));
      ReplayOne(Replay(names, events), before, r);
    }
  }

  /** A record on top of what waits, and what it makes of it. */
  lemma ReplayOne(names: set<FullPath>, before: string, r: Rec)
    requires before != "" ==> r.action.NewName?
    ensures Replay(Replay(names, Emits(before, r)), Flush(Waits(before, r)))
            == RecordOn(Replay(names, Flush(before)), r)
  {
    var e, f, g := Emits(before, r), Flush(Waits(before, r)), Flush(before);
    assert e != [] ==> e[..0] == [];
    assert f != [] ==> f[..0] == [];
    assert g != [] ==> g[..0] == [];
  }

  /** However the records are cut into buffers, the emitted events lead to the same set of names as
      the records themselves. */
  lemma {:induction false} CutsDoNotMatter(names: set<FullPath>, buffers: seq<seq<Rec>>)
    requires Paired(Flat(buffers))
    ensures Replay(names, StreamEvents(buffers)) == ReplayRecords(names, Flat(buffers))
  {
    if buffers != [] {
      var front, last := buffers[..|buffers| - 1], buffers[|buffers| - 1];
      assert forall i :: 0 <= i < |Flat(front)| ==> Flat(buffers)[i] == Flat(front)[i];
      assert forall i :: 0 <= i < |last| ==> Flat(buffers)[|Flat(front)| + i] == last[i];
      CutsDoNotMatter(names, front);
      ScanReplays(ReplayRecords(names, Flat(front)), last);
      ReplayTwice(names, StreamEvents(front), BufferEvents("", last));
      ReplayRecordsTwice(names, Flat(front), last);
    }
  }

  // ---- Modifications ----

  function ModifiedIn(records: seq<Rec>): seq<FullPath> {
    if records == [] then []
    else
      var r := records[|records| - 1];
      ModifiedIn(records[..|records| - 1]) + if r.action.Modified? then [r.full] else []
  }

  function ModifiesIn(events: seq<RawEvent>): seq<FullPath> {
    if events == [] then []
    else
      var e := events[|events| - 1];
      ModifiesIn(events[..|events| - 1]) + if e.Modify? then [e.path] else []
  }

  lemma {:induction false} ModifiesTwice(a: seq<RawEvent>, b: seq<RawEvent>)
    ensures ModifiesIn(a + b) == ModifiesIn(a) + ModifiesIn(b)
  {
    if b == [] {
      assert a + b == a;
    } else {
      assert (a + b)[..|a + b| - 1] == a + b[..|b| - 1];
      ModifiesTwice(a, b[..|b| - 1]);
    }
  }

  lemma {:induction false} ModifiedTwice(a: seq<Rec>, b: seq<Rec>)
    ensures ModifiedIn(a + b) == ModifiedIn(a) + ModifiedIn(b)
  {
    if b == [] {
      assert a + b == a;
    } else {
      assert (a + b)[..|a + b| - 1] == a + b[..|b| - 1];
      ModifiedTwice(a, b[..|b| - 1]);
    }
  }

  lemma {:induction false} ScanModifies(pending: string, records: seq<Rec>)
    ensures ModifiesIn(Emitted(pending, records)) == ModifiedIn(records)
  {
    if records != [] {
      var front, r := records[..|records| - 1], records[|records| - 1];
      var more := Emits(WaitsAfter(pending, front), r);
      ScanModifies(pending, front);
      ModifiesTwice(Emitted(pending, front), more);
      assert more != [] ==> more[..0] == [];
    }
  }

  /** Of any records in any cut, exactly the modifications are reported as such, in their order. */
  lemma {:induction false} ModificationsPassThrough(buffers: seq<seq<Rec>>)
    ensures ModifiesIn(StreamEvents(buffers)) == ModifiedIn(Flat(buffers))
  {
    if buffers != [] {
      var front, last := buffers[..|buffers| - 1], buffers[|buffers| - 1];
      ModificationsPassThrough(front);
      ScanModifies("", last);
      var flush := Flush(WaitsAfter("", last));
      assert flush != [] ==> flush[..0] == [];
      ModifiesTwice(Emitted("", last), flush);
      ModifiesTwice(StreamEvents(front), BufferEvents("", last));
      ModifiedTwice(Flat(front), last);
    }
  }

  // ---- What a pair becomes ----

  lemma {:induction false} WaitsSplit(pending: string, a: seq<Rec>, b: seq<Rec>)
    ensures WaitsAfter(pending, a + b) == WaitsAfter(WaitsAfter(pending, a), b)
  {
    if b == [] {
      assert a + b == a;
    } else {
      assert (a + b)[..|a + b| - 1] == a + b[..|b| - 1];
      WaitsSplit(pending, a, b[..|b| - 1]);
    }
  }

  lemma {:induction false} ScanSplit(pending: string, a: seq<Rec>, b: seq<Rec>)
    ensures WaitsAfter(pending, a + b) == WaitsAfter(WaitsAfter(pending, a), b)
    ensures Emitted(pending, a + b) == Emitted(pending, a) + Emitted(WaitsAfter(pending, a), b)
  {
    WaitsSplit(pending, a, b);
    if b == [] {
      assert a + b == a;
    } else {
      var front, r := b[..|b| - 1], b[|b| - 1];
      assert (a + b)[..|a + b| - 1] == a + front;
      ScanSplit(pending, a, front);
      var waiting := WaitsAfter(pending, a);
      Reassociate(Emitted(pending, a), Emitted(waiting, front), Emits(WaitsAfter(waiting, front), r));
    }
  }

  lemma ScanOne(pending: string, r: Rec)
    ensures WaitsAfter(pending, [r]) == Waits(pending, r) && Emitted(pending, [r]) == Emits(pending, r)
  {
    assert [r][..0] == [];
  }

  /** A pair in one buffer is one rename, and nothing around it changes. */
  lemma UncutPair(before: seq<Rec>, o: FullPath, p: FullPath, after: seq<Rec>)
    requires Paired(before) && !EndsInOldName(before)
    ensures BufferEvents("", before + [Rec(OldName, o), Rec(NewName, p)] + after)
            == BufferEvents("", before) + [Rename(o, p)] + BufferEvents("", after)
  {
    var first, second := Rec(OldName, o), Rec(NewName, p);
    OnlyLastWaits(before);
    ScanOne("", first);
    ScanOne(o, second);
    ScanSplit("", [first], [second]);
    assert [first] + [second] == [first, second];
    AroundPair(before, [first, second], after);
  }

  /** Records after which no old name waits can be scanned apart from what surrounds them. */
  lemma AroundPair(before: seq<Rec>, pair: seq<Rec>, after: seq<Rec>)
    requires WaitsAfter("", before) == "" && WaitsAfter("", pair) == ""
    ensures BufferEvents("", before + pair + after)
            == BufferEvents("", before) + Emitted("", pair) + BufferEvents("", after)
  {
    ScanSplit("", before, pair);
    ScanSplit("", before + pair, after);
    Reassociate(Emitted("", before + pair), Emitted("", after), Flush(WaitsAfter("", after)));
  }

  /** An old name at the end of a buffer is a removal, and a new name at the start a creation. */
  lemma CutEnds(before: seq<Rec>, o: FullPath, p: FullPath, after: seq<Rec>)
    requires WaitsAfter("", before) == ""
    ensures BufferEvents("", before + [Rec(OldName, o)]) == BufferEvents("", before) + [Remove(o)]
    ensures BufferEvents("", [Rec(NewName, p)] + after) == [Create(p)] + BufferEvents("", after)
  {
    ScanOne("", Rec(OldName, o));
    ScanSplit("", before, [Rec(OldName, o)]);
    ScanOne("", Rec(NewName, p));
    ScanSplit("", [Rec(NewName, p)], after);
    Reassociate([Create(p)], Emitted("", after), Flush(WaitsAfter("", after)));
  }

  /** A pair cut in two is a removal and a creation. */
  lemma CutPair(before: seq<Rec>, o: FullPath, p: FullPath, after: seq<Rec>)
    requires Paired(before) && !EndsInOldName(before)
    ensures BufferEvents("", before + [Rec(OldName, o)]) + BufferEvents("", [Rec(NewName, p)] + after)
            == BufferEvents("", before) + [Remove(o), Create(p)] + BufferEvents("", after)
  {
    OnlyLastWaits(before);
    CutEnds(before, o, p, after);
    SplitPair(BufferEvents("", before), o, p, BufferEvents("", after));
  }

  lemma SplitPair(a: seq<RawEvent>, o: FullPath, p: FullPath, b: seq<RawEvent>)
    ensures (a + [Remove(o)]) + ([Create(p)] + b) == a + [Remove(o), Create(p)] + b
  {
  }

  /** Without the pairing names are lost: of two old names in a row the first is never removed. */
  lemma SecondOldNameHidesFirst(a: FullPath, b: FullPath, c: FullPath)
    ensures var buffer := [Rec(OldName, a), Rec(OldName, b), Rec(NewName, c)];
      && BufferEvents("", buffer) == [Rename(b, c)]
      && (Replay({a, b}, BufferEvents("", buffer)) == ReplayRecords({a, b}, buffer) <==> a == b || a == c)
  {
    var x, y, z := Rec(OldName, a), Rec(OldName, b), Rec(NewName, c);
    ScanOne("", x);
    ScanOne(a, y);
    ScanOne(b, z);
    ScanSplit("", [x], [y]);
    ScanSplit("", [x, y], [z]);
    assert [x] + [y] == [x, y] && [x, y] + [z] == [x, y, z];
    assert [Rename(b, c)][..0] == [];
    assert [x, y, z][..2] == [x, y] && [x, y][..1] == [x] && [x][..0] == [];
    assert ReplayRecords({a, b}, [x]) == {a, b} - {a};
    assert ReplayRecords({a, b}, [x, y]) == {a, b} - {a} - {b};
    assert ReplayRecords({a, b}, [x, y, z]) == {c};
    assert Replay({a, b}, [Rename(b, c)]) == {a, b} - {b} + {c};
    assert a != b && a != c ==> a in {a, b} - {b} + {c};
  }

  // ---- Old names without their pair ----

  /** Whether a record says anything about the presence of a name. */
  predicate Affects(r: Rec, a: FullPath) {
    r.full == a && (r.action.OldName? || r.action.NewName? || r.action.Added? || r.action.Removed?)
  }

  predicate Mentions(records: seq<Rec>, a: FullPath) {
    exists r :: r in records && Affects(r, a)
  }

  predicate SameReplay(s: set<FullPath>, t: set<FullPath>, records: seq<Rec>) {
    ReplayRecords(s, records) == ReplayRecords(t, records)
  }

  /** Whether a name is missing before some records can be told afterwards exactly if they do not
      mention it. */
  lemma {:induction false} RemovalMatters(names: set<FullPath>, records: seq<Rec>, a: FullPath)
    ensures SameReplay(names - {a}, names, records) <==> a !in names || Mentions(records, a)
    ensures forall b :: b != a ==>
      (b in ReplayRecords(names - {a}, records) <==> b in ReplayRecords(names, records))
    ensures !Mentions(records, a) ==> (a in ReplayRecords(names, records) <==> a in names)
  {
    if records != [] {
      var front, last := records[..|records| - 1], records[|records| - 1];
      RemovalMatters(names, front, a);
      assert records == front + [last];
      assert Mentions(records, a) <==> Mentions(front, a) || Affects(last, a);
      SameIfSameAt(names, front, a);
      SameIfSameAt(names, records, a);
    }
    assert names - {a} == names <==> a !in names;
  }

  lemma SameIfSameAt(names: set<FullPath>, records: seq<Rec>, a: FullPath)
    requires forall b :: b != a ==>
      (b in ReplayRecords(names - {a}, records) <==> b in ReplayRecords(names, records))
    ensures SameReplay(names - {a}, names, records)
            <==> (a in ReplayRecords(names - {a}, records) <==> a in ReplayRecords(names, records))
  {
  }

  /** Records between an old name and what ends its wait: anything but rename halves. */
  predicate NoHalves(records: seq<Rec>) {
    forall r :: r in records ==> !r.action.OldName? && !r.action.NewName?
  }

  /** Records that are not rename halves are emitted alike whatever waits, and leave it waiting. */
  lemma {:induction false} NoHalvesScan(pending: string, records: seq<Rec>)
    requires NoHalves(records)
    ensures WaitsAfter(pending, records) == pending && Emitted(pending, records) == Emitted("", records)
    decreases |records|
  {
    if records != [] {
      NoHalvesScan(pending, records[..|records| - 1]);
      NoHalvesScan("", records[..|records| - 1]);
    }
  }

  lemma ScanWithout(pending: string, before: seq<Rec>, mid: seq<Rec>)
    requires NoHalves(mid)
    ensures WaitsAfter(pending, before + mid) == WaitsAfter(pending, before)
    ensures Emitted(pending, before + mid) == Emitted(pending, before) + Emitted("", mid)
  {
    ScanSplit(pending, before, mid);
    NoHalvesScan(WaitsAfter(pending, before), mid);
  }

  lemma ScanWithOld(pending: string, before: seq<Rec>, a: FullPath, mid: seq<Rec>)
    requires NoHalves(mid)
    ensures WaitsAfter(pending, before + [Rec(OldName, a)] + mid) == a
    ensures Emitted(pending, before + [Rec(OldName, a)] + mid) == Emitted(pending, before) + Emitted("", mid)
  {
    ScanOne(WaitsAfter(pending, before), Rec(OldName, a));
    ScanSplit(pending, before, [Rec(OldName, a)]);
    assert Emitted(pending, before) + [] == Emitted(pending, before);
    ScanWithout(pending, before + [Rec(OldName, a)], mid);
  }

  /** In any buffer, an old name that another one follows before its pair comes leaves no trace: the
      events are those of the buffer without it. */
  lemma HiddenOldName(before: seq<Rec>, a: FullPath, mid: seq<Rec>, b: FullPath, after: seq<Rec>)
    requires NoHalves(mid)
    ensures BufferEvents("", before + [Rec(OldName, a)] + mid + [Rec(OldName, b)] + after)
            == BufferEvents("", before + mid + [Rec(OldName, b)] + after)
  {
    var second := Rec(OldName, b);
    var x, y := before + [Rec(OldName, a)] + mid, before + mid;
    ScanWithOld("", before, a, mid);
    ScanWithout("", before, mid);
    ScanOne(a, second);
    ScanOne(WaitsAfter("", y), second);
    ScanSplit("", x, [second]);
    ScanSplit("", y, [second]);
    ScanSplit("", x + [second], after);
    ScanSplit("", y + [second], after);
  }

  /** The events of a buffer lead to the same names as its records. */
  predicate ReplaysRight(names: set<FullPath>, buffer: seq<Rec>) {
    Replay(names, BufferEvents("", buffer)) == ReplayRecords(names, buffer)
  }

  /** So the name stays: replaying the events of such a buffer agrees with its records exactly when the
      name was not there, or the rest of the buffer mentions it. */
  lemma HiddenNameStays(
    names: set<FullPath>, before: seq<Rec>, a: FullPath, mid: seq<Rec>, b: FullPath, after: seq<Rec>)
    requires NoHalves(mid) && Paired(before + mid + [Rec(OldName, b)] + after)
    ensures var rest := mid + [Rec(OldName, b)] + after;
      var buffer := before + [Rec(OldName, a)] + mid + [Rec(OldName, b)] + after;
      ReplaysRight(names, buffer) <==> a !in ReplayRecords(names, before) || Mentions(rest, a)
  {
    var first, rest := Rec(OldName, a), mid + [Rec(OldName, b)] + after;
    HiddenOldName(before, a, mid, b, after);
    assert before + mid + [Rec(OldName, b)] + after == before + rest;
    assert before + [first] + mid + [Rec(OldName, b)] + after == before + ([first] + rest);
    ScanReplays(names, before + rest);
    ReplayRecordsTwice(names, before, rest);
    ReplayRecordsTwice(names, before, [first] + rest);
    ReplayRecordsTwice(ReplayRecords(names, before), [first], rest);
    assert [first][..0] == [];
    RemovalMatters(ReplayRecords(names, before), rest, a);
  }

  lemma {:induction false} EachNameApart(s: set<FullPath>, t: set<FullPath>, records: seq<Rec>, a: FullPath)
    requires a in s <==> a in t
    ensures a in ReplayRecords(s, records) <==> a in ReplayRecords(t, records)
  {
    if records != [] {
      EachNameApart(s, t, records[..|records| - 1], a);
    }
  }

  /** Without the name `a`, records lead to the same names whether it was there or not. */
  lemma Apart(there: set<FullPath>, mid: seq<Rec>, a: FullPath)
    ensures ReplayRecords(there, mid) - {a} == ReplayRecords(there - {a}, mid) - {a}
    ensures a in ReplayRecords(there - {a}, mid) <==> a in ReplayRecords({}, mid)
  {
    EachNameApart(there - {a}, {}, mid, a);
    forall c | c != a ensures c in ReplayRecords(there, mid) <==> c in ReplayRecords(there - {a}, mid) {
      EachNameApart(there, there - {a}, mid, c);
    }
  }

  lemma Swap(s: set<FullPath>, t: set<FullPath>, a: FullPath, b: FullPath)
    requires s - {a} == t - {a}
    ensures s - {a} + {b} == if a == b then t + {b} else t + {b} - {a}
  {
    assert s - {a} + {b} == t - {a} + {b};
  }

  /** The events of a pair with other records in between: those first, then the rename. */
  lemma DelayedEvents(before: seq<Rec>, a: FullPath, mid: seq<Rec>, b: FullPath, after: seq<Rec>)
    requires NoHalves(mid) && Paired(before) && !EndsInOldName(before)
    ensures BufferEvents("", before + [Rec(OldName, a)] + mid + [Rec(NewName, b)] + after)
            == Emitted("", before) + Emitted("", mid) + [Rename(a, b)] + BufferEvents("", after)
  {
    var x := before + [Rec(OldName, a)] + mid;
    ScanWithOld("", before, a, mid);
    ScanOne(a, Rec(NewName, b));
    ScanSplit("", x, [Rec(NewName, b)]);
    ScanSplit("", x + [Rec(NewName, b)], after);
    Reassociate(Emitted("", x + [Rec(NewName, b)]), Emitted("", after), Flush(WaitsAfter("", after)));
  }

  /** Those events and the records, one after the other. */
  lemma DelayedReplay(names: set<FullPath>, before: seq<Rec>, a: FullPath, mid: seq<Rec>, b: FullPath, after: seq<Rec>)
    requires NoHalves(mid) && Paired(before) && !EndsInOldName(before) && Paired(after)
    ensures var buffer := before + [Rec(OldName, a)] + mid + [Rec(NewName, b)] + after;
      var there := ReplayRecords(names, before);
      && Replay(names, BufferEvents("", buffer)) == ReplayRecords(ReplayRecords(there, mid) - {a} + {b}, after)
      && ReplayRecords(names, buffer) == ReplayRecords(ReplayRecords(there - {a}, mid) + {b}, after)
  {
    var there := ReplayRecords(names, before);
    DelayedEvents(before, a, mid, b, after);
    OnlyLastWaits(before);
    NoHalvesScan("", mid);
    assert Emitted("", before) + [] == Emitted("", before) && Emitted("", mid) + [] == Emitted("", mid);
    ScanReplays(names, before);
    ScanReplays(there, mid);
    ScanReplays(ReplayRecords(there, mid) - {a} + {b}, after);
    ReplayTwice(names, Emitted("", before), Emitted("", mid));
    ReplayTwice(names, Emitted("", before) + Emitted("", mid), [Rename(a, b)]);
    ReplayTwice(names, Emitted("", before) + Emitted("", mid) + [Rename(a, b)], BufferEvents("", after));
    assert [Rename(a, b)][..0] == [];
    RecordsInTurn(names, before, a, mid, b, after);
  }

  lemma RecordsInTurn(names: set<FullPath>, before: seq<Rec>, a: FullPath, mid: seq<Rec>, b: FullPath, after: seq<Rec>)
    ensures ReplayRecords(names, before + [Rec(OldName, a)] + mid + [Rec(NewName, b)] + after)
            == ReplayRecords(ReplayRecords(ReplayRecords(names, before) - {a}, mid) + {b}, after)
  {
    var first, second := Rec(OldName, a), Rec(NewName, b);
    ReplayRecordsTwice(names, before, [first]);
    ReplayRecordsTwice(names, before + [first], mid);
    ReplayRecordsTwice(names, before + [first] + mid, [second]);
    ReplayRecordsTwice(names, before + [first] + mid + [second], after);
    assert [first][..0] == [] && [second][..0] == [];
  }

  /** A pair with other records in between is one rename at its end. The replay agrees with the records
      exactly unless the old name came back in between: added last, and mentioned no more. */
  lemma DelayedPair(names: set<FullPath>, before: seq<Rec>, a: FullPath, mid: seq<Rec>, b: FullPath, after: seq<Rec>)
    requires NoHalves(mid) && Paired(before) && !EndsInOldName(before) && Paired(after)
    ensures ReplaysRight(names, before + [Rec(OldName, a)] + mid + [Rec(NewName, b)] + after) <==>
      a == b || Mentions(after, a) || a !in ReplayRecords({}, mid)
  {
    var there := ReplayRecords(names, before);
    var left := ReplayRecords(there - {a}, mid);
    DelayedReplay(names, before, a, mid, b, after);
    Apart(there, mid, a);
    Swap(ReplayRecords(there, mid), left, a, b);
    if a != b {
      RemovalMatters(left + {b}, after, a);
    }
  }
}
