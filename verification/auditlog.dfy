/** The rotating audit log (internal/auditlog/auditlog.go), and how it is read back
    (internal/auditlog/read.go). */
module AuditLog {
  import opened Sequences

  const MAX_BACKUPS: nat := 4

  const DEFAULT_MAX_BYTES: int := 8 * 1024 * 1024

  /** A marshalled record with its newline. */
  type Line = s: string | s != "" witness "\n"

  type File = seq<Line>

  function Size(f: File): nat {
    if f == [] then 0 else Size(f[..|f| - 1]) + |f[|f| - 1]|
  }

  /** The files of one log: the live one, then its backups from ".1" on. */
  type Generations = g: seq<File> | g != [] witness [[]]

  /** The live file cannot take the line: it must be rotated first. */
  predicate MustRotate(g: Generations, line: Line, maxBytes: int) {
    maxBytes > 0 && Size(g[0]) > 0 && Size(g[0]) + |line| > maxBytes
  }

  /** The files that become backups in a rotation. */
  function Older(g: Generations): seq<File> {
    if |g| > MAX_BACKUPS then g[..MAX_BACKUPS] else g
  }

  function Rotated(g: Generations): Generations {
    [[]] + Older(g)
  }

  function Logged(g: Generations, line: Line, maxBytes: int): Generations {
    var at := if MustRotate(g, line, maxBytes) then Rotated(g) else g;
    at[0 := at[0] + [line]]
  }

  /** What is read back, oldest first. */
  function Retained(g: seq<File>): seq<Line> {
    if g == [] then [] else Retained(g[1..]) + g[0]
  }

  // ---- The logger and its directory ----

  /** The files are the generations, by number. */
  ghost predicate Holds(files: map<nat, File>, g: seq<File>) {
    && (forall n: nat :: n in files <==> n < |g|)
    && (forall n: nat :: n < |g| ==> files[n] == g[n])
  }

  /** Half-way through a rotation: what was above `n` has moved one up, and `n + 1` is free. */
  ghost predicate Shifted(files: map<nat, File>, g: seq<File>, n: nat) {
    && (forall k: nat :: k in files <==> k <= MAX_BACKUPS && k != n + 1 && k < if k <= n then |g| else |g| + 1)
    && (forall k: nat :: k in files ==> files[k] == g[if k <= n then k else k - 1])
  }

  class Logger {
    var files: map<nat, File>  // 0 is the live file, n its backup ".n"
    var maxBytes: int
    var size: nat
    ghost var generations: seq<File>

    ghost predicate Valid()
      reads this
    {
      && 1 <= |generations| <= MAX_BACKUPS + 1
      && Holds(files, generations)
      && size == Size(generations[0])
    }

    /** Opens a log with the files it has: none, or those of an earlier session. */
    constructor Open(existing: map<nat, File>, ghost g: Generations)
      requires |g| <= MAX_BACKUPS + 1 && (0 !in existing ==> g[0] == [])
      requires Holds(existing[0 := g[0]], g) && (0 in existing ==> existing[0] == g[0])
      ensures Valid() && generations == g && maxBytes == 8 * 1024 * 1024
    {
      var live := if 0 in existing then existing[0] else [];
      files := existing[0 := live];
      maxBytes, size := DEFAULT_MAX_BYTES, Size(live);
      generations := g;
    }

    method SetMaxBytes(n: int)
      requires Valid()
      modifies this`maxBytes
      ensures Valid() && maxBytes == n
    {
      maxBytes := n;
    }

    method Log(line: Line)
      requires Valid()
      modifies this`files, this`size, this`generations
      ensures Valid() && generations == Logged(old(generations), line, maxBytes)
    {
      if maxBytes > 0 && size > 0 && size + |line| > maxBytes {
        Rotate();
      }
      files := files[0 := files[0] + [line]];
      size := size + |line|;
      generations := generations[0 := generations[0] + [line]];
    }

    /** Drops the oldest backup, moves every file one further, and starts a new live file. */
    method Rotate()
      requires Valid()
      modifies this`files, this`size, this`generations
      ensures Valid() && generations == Rotated(old(generations)) && size == 0
    {
      ghost var g := generations;
      files := files - {MAX_BACKUPS};
      var n := MAX_BACKUPS - 1;
      while n >= 1
        invariant 0 <= n <= MAX_BACKUPS - 1
        invariant Shifted(files, g, n)
      {
        ShiftOne(files, g, n);
        if n in files {
          files := files[n + 1 := files[n]] - {n};
        }
        n := n - 1;
      }
      ShiftDone(files, g);
      files := files[1 := files[0]] - {0};
      files := files[0 := []];
      size := 0;
      generations := Rotated(g);
    }

    /** Every file of the log, oldest first; a missing one is skipped. */
    method ReadAll() returns (lines: seq<Line>)
      requires Valid()
      ensures lines == Retained(generations)
    {
      lines := [];
      var n := MAX_BACKUPS;
      while n >= 1
        invariant 0 <= n <= MAX_BACKUPS
        invariant lines == Retained(if n + 1 < |generations| then generations[n + 1..] else [])
      {
        if n in files {
          lines := lines + files[n];
        }
        n := n - 1;
      }
      lines := lines + files[0];
    }
  }

  lemma ShiftOne(files: map<nat, File>, g: seq<File>, n: nat)
    requires 1 <= n < MAX_BACKUPS && Shifted(files, g, n)
    ensures Shifted(if n in files then files[n + 1 := files[n]] - {n} else files, g, n - 1)
  {
    var moved := if n in files then files[n + 1 := files[n]] - {n} else files;
    forall k: nat
      ensures k in moved <==> k <= MAX_BACKUPS && k != n && k < if k <= n - 1 then |g| else |g| + 1
      ensures k in moved ==> moved[k] == g[if k <= n - 1 then k else k - 1]
    {
      assert k in files <==> k <= MAX_BACKUPS && k != n + 1 && k < if k <= n then |g| else |g| + 1;
      assert n in files <==> n < |g|;
    }
  }

  lemma ShiftDone(files: map<nat, File>, g: Generations)
    requires |g| <= MAX_BACKUPS + 1 && Shifted(files, g, 0)
    ensures 0 in files && Holds((files[1 := files[0]] - {0})[0 := []], Rotated(g))
  {
    var moved := (files[1 := files[0]] - {0})[0 := []];
    assert 0 in files && files[0] == g[0];
    forall n: nat ensures n in moved <==> n < |Rotated(g)| {
      assert n in files <==> n <= MAX_BACKUPS && n != 1 && n < if n <= 0 then |g| else |g| + 1;
    }
    forall n: nat | n < |Rotated(g)| ensures moved[n] == Rotated(g)[n] {
      if n > 1 {
        assert n in files && files[n] == g[n - 1];
      }
    }
  }

  // ---- Any number of records ----

  function LoggedAll(g: Generations, lines: seq<Line>, maxBytes: int): Generations {
    if lines == [] then g
    else Logged(LoggedAll(g, lines[..|lines| - 1], maxBytes), lines[|lines| - 1], maxBytes)
  }

  /** Each file is within the limit or holds a single record, and each backup was full: the record
      that follows it would not have fitted. */
  predicate WellFilled(g: Generations, maxBytes: int) {
    && |g| <= MAX_BACKUPS + 1
    && (forall n :: 0 <= n < |g| ==> Size(g[n]) <= maxBytes || |g[n]| == 1)
    && (forall n :: 1 <= n < |g| ==> WasFull(g, n, maxBytes))
  }

  predicate WasFull(g: Generations, n: nat, maxBytes: int)
    requires 1 <= n < |g|
  {
    g[n] != [] && g[n - 1] != [] && Size(g[n]) + |g[n - 1][0]| > maxBytes
  }

  predicate IsSuffix<T(==)>(s: seq<T>, t: seq<T>) {
    |s| <= |t| && t[|t| - |s|..] == s
  }

  lemma SizePositive(f: File)
    ensures Size(f) > 0 <==> f != []
  {
  }

  lemma SizeOfOne(line: Line)
    ensures Size([line]) == |line|
  {
    assert [line][..0] == [];
  }

  lemma RotatedFills(g: Generations, line: Line, maxBytes: int)
    requires maxBytes > 0 && WellFilled(g, maxBytes) && MustRotate(g, line, maxBytes)
    ensures WellFilled([[line]] + Older(g), maxBytes)
  {
    var g' := [[line]] + Older(g);
    SizePositive(g[0]);
    forall n | 1 <= n < |g'| ensures WasFull(g', n, maxBytes) {
      assert g'[n] == g[n - 1];
      if n > 1 {
        assert g'[n - 1] == g[n - 2] && WasFull(g, n - 1, maxBytes);
      }
    }
  }

  lemma AppendedFills(g: Generations, line: Line, maxBytes: int)
    requires maxBytes > 0 && WellFilled(g, maxBytes) && !MustRotate(g, line, maxBytes)
    ensures WellFilled([g[0] + [line]] + g[1..], maxBytes)
  {
    var g' := [g[0] + [line]] + g[1..];
    SizePositive(g[0]);
    assert (g[0] + [line])[..|g[0]|] == g[0];
    forall n | 1 <= n < |g'| ensures WasFull(g', n, maxBytes) {
      assert WasFull(g, n, maxBytes) && g'[n] == g[n];
    }
  }

  lemma LoggedFills(g: Generations, line: Line, maxBytes: int)
    requires maxBytes > 0 && WellFilled(g, maxBytes)
    ensures WellFilled(Logged(g, line, maxBytes), maxBytes)
  {
    LoggedShape(g, line, maxBytes);
    SizeOfOne(line);
    if MustRotate(g, line, maxBytes) {
      RotatedFills(g, line, maxBytes);
    } else {
      AppendedFills(g, line, maxBytes);
    }
  }

  lemma {:induction false} RetainedSplit(a: seq<File>, b: seq<File>)
    ensures Retained(a + b) == Retained(b) + Retained(a)
  {
    if a == [] {
      assert a + b == b;
    } else {
      RetainedSplit(a[1..], b);
      assert (a + b)[1..] == a[1..] + b;
      Reassociate(Retained(b), Retained(a[1..]), a[0]);
    }
  }

  lemma RetainedOne(f: File)
    ensures Retained([f]) == f
  {
    var files := [f];
    assert files[1..] == [];
  }

  /** The live file and the backups after a record. */
  lemma LoggedShape(g: Generations, line: Line, maxBytes: int)
    ensures Logged(g, line, maxBytes)
            == if MustRotate(g, line, maxBytes) then [[line]] + Older(g) else [g[0] + [line]] + g[1..]
  {
    if MustRotate(g, line, maxBytes) {
      assert Rotated(g)[0] + [line] == [line];
    }
  }

  lemma RotatedKeeps(g: Generations, line: Line)
    requires |g| <= MAX_BACKUPS + 1
    ensures Retained(g) + [line]
            == (if |g| > MAX_BACKUPS then g[MAX_BACKUPS] else []) + Retained([[line]] + Older(g))
  {
    RetainedFirst([line], Older(g));
    OlderKeeps(g);
    Reassociate(if |g| > MAX_BACKUPS then g[MAX_BACKUPS] else [], Retained(Older(g)), [line]);
  }

  lemma AppendedKeeps(g: Generations, line: Line)
    ensures Retained(g) + [line] == Retained([g[0] + [line]] + g[1..])
  {
    RetainedFirst(g[0] + [line], g[1..]);
    Reassociate(Retained(g[1..]), g[0], [line]);
  }

  /** A record goes to the end, and only a rotation with all backups in use drops any: the oldest file. */
  lemma LoggedKeeps(g: Generations, line: Line, maxBytes: int)
    requires |g| <= MAX_BACKUPS + 1
    ensures Retained(g) + [line] == Dropped(g, line, maxBytes) + Retained(Logged(g, line, maxBytes))
  {
    LoggedShape(g, line, maxBytes);
    if MustRotate(g, line, maxBytes) {
      RotatedKeeps(g, line);
    } else {
      AppendedKeeps(g, line);
    }
  }

  /** What a record pushes out of the log. */
  function Dropped(g: Generations, line: Line, maxBytes: int): File {
    if MustRotate(g, line, maxBytes) && |g| > MAX_BACKUPS then g[MAX_BACKUPS] else []
  }

  lemma RetainedFirst(f: File, older: seq<File>)
    ensures Retained([f] + older) == Retained(older) + f
  {
    assert ([f] + older)[1..] == older;
  }

  lemma OlderKeeps(g: Generations)
    requires |g| <= MAX_BACKUPS + 1
    ensures Retained(g) == (if |g| > MAX_BACKUPS then g[MAX_BACKUPS] else []) + Retained(Older(g))
  {
    if |g| > MAX_BACKUPS {
      var oldest := g[MAX_BACKUPS];
      RetainedSplit(Older(g), [oldest]);
      RetainedOne(oldest);
      assert g == Older(g) + [oldest];
    }
  }

  lemma SuffixGrows<T>(s: seq<T>, t: seq<T>, x: T, dropped: seq<T>, s': seq<T>)
    requires IsSuffix(s, t) && s + [x] == dropped + s'
    ensures IsSuffix(s', t + [x])
  {
    assert t == t[..|t| - |s|] + s;
    assert t + [x] == t[..|t| - |s|] + (s + [x]);
    assert t + [x] == t[..|t| - |s|] + dropped + s';
  }

  /** Five files, of which any two neighbours together exceed the limit. */
  lemma DroppedOnlyWhenFull(g: Generations, maxBytes: int)
    requires WellFilled(g, maxBytes) && |g| == MAX_BACKUPS + 1
    ensures Size(g[0]) + Size(g[1]) + Size(g[2]) + Size(g[3]) + Size(g[4]) > 2 * maxBytes
  {
    assert WasFull(g, 1, maxBytes) && WasFull(g, 3, maxBytes);
    FirstIsPart(g[0]);
    FirstIsPart(g[2]);
    SizePositive(g[4]);
    assert WasFull(g, 4, maxBytes);
  }

  lemma {:induction false} FirstIsPart(f: File)
    requires f != []
    ensures |f[0]| <= Size(f)
  {
    if |f| == 1 {
      SizeOfOne(f[0]);
      assert f == [f[0]];
    } else {
      FirstIsPart(f[..|f| - 1]);
    }
  }

  /** In at most five files, what is read back is a contiguous suffix of `all`, and all of it unless
      all five files are in use. */
  predicate KeepsNewest(g: Generations, all: seq<Line>) {
    && |g| <= MAX_BACKUPS + 1
    && IsSuffix(Retained(g), all)
    && (Retained(g) != all ==> |g| == MAX_BACKUPS + 1)
  }

  predicate EndsWith(f: File, line: Line) {
    f != [] && f[|f| - 1] == line
  }

  lemma OneMore(before: Generations, after: Generations, line: Line, maxBytes: int, all: seq<Line>, more: seq<Line>)
    requires KeepsNewest(before, all) && after == Logged(before, line, maxBytes) && more == all + [line]
    ensures KeepsNewest(after, more) && EndsWith(after[0], line)
  {
    LoggedShape(before, line, maxBytes);
    LoggedKeeps(before, line, maxBytes);
    var dropped := Dropped(before, line, maxBytes);
    SuffixGrows(Retained(before), all, line, dropped, Retained(after));
    assert dropped == [] ==> dropped + Retained(after) == Retained(after);
  }

  /** The audit log is a bounded suffix: whatever is logged on top of what an earlier session left, the
      newest records are kept, the last one in the live file. */
  lemma {:induction false} BoundedSuffix(g: Generations, lines: seq<Line>, maxBytes: int)
    requires |g| <= MAX_BACKUPS + 1
    ensures KeepsNewest(LoggedAll(g, lines, maxBytes), Retained(g) + lines)
    ensures lines != [] ==> EndsWith(LoggedAll(g, lines, maxBytes)[0], lines[|lines| - 1])
  {
    if lines == [] {
      assert Retained(g) + lines == Retained(g);
    } else {
      var front, line := lines[..|lines| - 1], lines[|lines| - 1];
      BoundedSuffix(g, front, maxBytes);
      Reassociate(Retained(g), front, [line]);
      assert front + [line] == lines;
      OneMore(LoggedAll(g, front, maxBytes), LoggedAll(g, lines, maxBytes), line, maxBytes,
              Retained(g) + front, Retained(g) + lines);
    }
  }

  /** With a limit, each file is within it or holds a single record, and each backup was full. */
  lemma {:induction false} StaysWellFilled(g: Generations, lines: seq<Line>, maxBytes: int)
    requires maxBytes > 0 && WellFilled(g, maxBytes)
    ensures WellFilled(LoggedAll(g, lines, maxBytes), maxBytes)
  {
    if lines != [] {
      StaysWellFilled(g, lines[..|lines| - 1], maxBytes);
      LoggedFills(LoggedAll(g, lines[..|lines| - 1], maxBytes), lines[|lines| - 1], maxBytes);
    }
  }

  /** A log that starts empty: once a record is missing, more than twice the limit is retained. */
  lemma DropsOnlyBeyondTwiceTheLimit(lines: seq<Line>, maxBytes: int)
    requires maxBytes > 0
    ensures var after := LoggedAll([[]], lines, maxBytes);
      Retained(after) != lines ==>
        |after| == MAX_BACKUPS + 1
        && Size(after[0]) + Size(after[1]) + Size(after[2]) + Size(after[3]) + Size(after[4]) > 2 * maxBytes
  {
    BoundedSuffix([[]], lines, maxBytes);
    StaysWellFilled([[]], lines, maxBytes);
    RetainedOne([]);
    assert [] + lines == lines;
    if Retained(LoggedAll([[]], lines, maxBytes)) != lines {
      DroppedOnlyWhenFull(LoggedAll([[]], lines, maxBytes), maxBytes);
    }
  }

  /** Without a limit nothing is rotated, and nothing is lost. */
  lemma {:induction false} NoLimit(g: Generations, lines: seq<Line>, maxBytes: int)
    requires maxBytes <= 0
    ensures LoggedAll(g, lines, maxBytes) == g[0 := g[0] + lines]
  {
    if lines == [] {
      assert g[0] + lines == g[0];
    } else {
      NoLimit(g, lines[..|lines| - 1], maxBytes);
      assert g[0] + lines[..|lines| - 1] + [lines[|lines| - 1]] == g[0] + lines;
    }
  }
}
