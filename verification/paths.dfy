/** Optional values, and the error results the Go code returns. */
module Outcomes {
  datatype Option<+T> = None | Some(value: T)

  datatype Result<+T, +E> = Ok(value: T) | Err(error: E)
}

module Sequences {
  lemma Reassociate<T>(a: seq<T>, b: seq<T>, c: seq<T>)
    ensures a + b + c == a + (b + c)
  {
  }
}

/** Root-relative paths, file contents and content hashes. */
module Paths {
  type MachineId = string

  /** One path component. `Aside` is the name `<of>.conflict-<origin>-<at>` that ApplyConflict
      gives to a set-aside copy; as a constructor of its own it never equals another name. */
  datatype Name = Plain(text: string) | Aside(of: Name, origin: MachineId, at: nat)

  /** A non-empty, root-relative path, component by component. */
  type Path = p: seq<Name> | p != [] witness [Plain("")]

  newtype Byte = b: int | 0 <= b < 256

  type Content = seq<Byte>

  /** A SHA-256 digest, taken to be injective. */
  datatype Digest = Digest(of: Content)

  function ContentHash(data: Content): Digest {
    Digest(data)
  }

  function Last(p: Path): Name {
    p[|p| - 1]
  }

  function Dir(p: Path): seq<Name> {
    p[..|p| - 1]
  }

  /** Where ApplyConflict puts a write to `p` by `origin`, at second `now`. */
  function ConflictPath(p: Path, origin: MachineId, now: nat): Path {
    Dir(p) + [Aside(Last(p), origin, now)]
  }

  function NameDepth(n: Name): nat {
    match n
    case Plain(_) => 0
    case Aside(of, _, _) => 1 + NameDepth(of)
  }

  /** How often a path has been set aside: the depth of its conflict suffixes. */
  function Depth(p: Path): nat {
    NameDepth(Last(p))
  }

  /** One path is the other, or lies below it. */
  predicate Overlap(p: Path, q: Path) {
    p <= q || q <= p
  }

  lemma ConflictPathInjective(p: Path, q: Path, o1: MachineId, o2: MachineId, t1: nat, t2: nat)
    requires ConflictPath(p, o1, t1) == ConflictPath(q, o2, t2)
    ensures p == q && o1 == o2 && t1 == t2
  {
    var a, b := ConflictPath(p, o1, t1), ConflictPath(q, o2, t2);
    assert Last(a) == Aside(Last(p), o1, t1) && Last(b) == Aside(Last(q), o2, t2);
    assert Dir(a) == Dir(p) && Dir(b) == Dir(q);
    assert p == Dir(p) + [Last(p)] && q == Dir(q) + [Last(q)];
  }
}
