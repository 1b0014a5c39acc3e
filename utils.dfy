/** `fds/utils.py`: `str2bool` and `get_size_of_path`. */
module Utils {
  import opened Wrappers
  import opened FileTree
  import Text

  /** `str2bool` accepts either a `bool` or a `str`. */
  datatype Value = Bool(b: bool) | Str(s: string)

  const TrueWords: set<string> := {"yes", "true", "t", "y", "1"}
  const FalseWords: set<string> := {"no", "false", "f", "n", "0"}

  /** A bool is returned unchanged; a string is read case-insensitively as one
      of the true words or one of the false words, and anything else is an
      error. The two word sets are disjoint, so no string reads both ways. */
  function Str2Bool(v: Value): (r: Result<bool>)
    ensures v.Bool? ==> r == Ok(v.b)
    ensures v.Str? ==> (r == Ok(true) <==> Text.Lower(v.s) in TrueWords)
    ensures v.Str? ==> (r == Ok(false) <==> Text.Lower(v.s) in FalseWords)
    ensures v.Str? ==> (r.Err? <==> Text.Lower(v.s) !in TrueWords + FalseWords)
  {
    match v
    case Bool(b) => Ok(b)
    case Str(s) =>
      if Text.Lower(s) in TrueWords then Ok(true)
      else if Text.Lower(s) in FalseWords then Ok(false)
      else Err("Boolean value expected.")
  }

  /** Case does not matter: an upper-cased string reads the same. */
  lemma Str2BoolIgnoresCase(s: string)
    ensures Str2Bool(Str(Text.Upper(s))) == Str2Bool(Str(s))
  {
    Text.LowerOfUpper(s);
  }

  /** `get_size_of_path(path)`: the sum of `st_size` over `Path(path).rglob('*')`,
      that is over every entry strictly beneath the path. `rglob` yields
      nothing for a regular file, so a file's size is 0 here. */
  function SizeOfPath(n: Node): (size: nat)
    ensures n.File? ==> size == 0
    ensures n.Dir? && n.children == [] ==> size == 0
  {
    match n
    case File(_, _) => 0
    case Dir(_, _, cs) => SizeBeneath(cs)
  }

  /** The sizes of a listing's entries and of everything beneath them. */
  function SizeBeneath(cs: seq<Node>): nat
  {
    if cs == [] then 0 else cs[0].size + SizeOfPath(cs[0]) + SizeBeneath(cs[1..])
  }

  /** Every entry strictly beneath a path. */
  function Beneath(n: Node): seq<Node>
  {
    match n
    case File(_, _) => []
    case Dir(_, _, cs) => BeneathAll(cs)
  }

  function BeneathAll(cs: seq<Node>): seq<Node>
  {
    if cs == [] then [] else [cs[0]] + Beneath(cs[0]) + BeneathAll(cs[1..])
  }

  function SumSizes(ns: seq<Node>): nat
  {
    if ns == [] then 0 else ns[0].size + SumSizes(ns[1..])
  }

  lemma {:induction false} SumSizesAppend(a: seq<Node>, b: seq<Node>)
    ensures SumSizes(a + b) == SumSizes(a) + SumSizes(b)
  {
    if a == [] {
      assert a + b == b;
    } else {
      assert (a + b)[1..] == a[1..] + b;
      SumSizesAppend(a[1..], b);
    }
  }

  /** The size of a path is the sum of the sizes of the entries beneath it,
      subdirectories included and the path itself excluded. */
  lemma {:induction false} SizeOfPathIsSumBeneath(n: Node)
    ensures SizeOfPath(n) == SumSizes(Beneath(n))
    decreases n, 1
  {
    if n.Dir? {
      SizeBeneathIsSum(n.children);
    }
  }

  lemma {:induction false} SizeBeneathIsSum(cs: seq<Node>)
    ensures SizeBeneath(cs) == SumSizes(BeneathAll(cs))
    decreases cs, 0
  {
    if cs != [] {
      SizeOfPathIsSumBeneath(cs[0]);
      SizeBeneathIsSum(cs[1..]);
      SumSizesAppend([cs[0]] + Beneath(cs[0]), BeneathAll(cs[1..]));
      SumSizesAppend([cs[0]], Beneath(cs[0]));
    }
  }

  /** An entry of a directory, with everything beneath it, is no larger than
      the directory: in particular a subdirectory is never larger. */
  lemma {:induction false} ChildNoLarger(n: Node, c: Node)
    requires n.Dir? && c in n.children
    ensures c.size + SizeOfPath(c) <= SizeOfPath(n)
    ensures SizeOfPath(c) <= SizeOfPath(n)
  {
    EntryNoLargerThanListing(n.children, c);
  }

  lemma {:induction false} EntryNoLargerThanListing(cs: seq<Node>, c: Node)
    requires c in cs
    ensures c.size + SizeOfPath(c) <= SizeBeneath(cs)
  {
    if cs[0] != c {
      EntryNoLargerThanListing(cs[1..], c);
    }
  }

  /** The size a path evidently should have: its own `st_size` for a file and,
      as `get_size_of_path` computes it, the total beneath it for a
      directory. */
  function EntrySize(n: Node): (size: nat)
    ensures n.File? ==> size == n.size
    ensures n.Dir? ==> size == SizeOfPath(n)
  {
    if n.File? then n.size else SizeOfPath(n)
  }

  /** The two sizes differ exactly on non-empty files. */
  lemma EntrySizeDiffersOnlyOnFiles(n: Node)
    ensures EntrySize(n) != SizeOfPath(n) <==> n.File? && n.size > 0
  {
  }

  /** A subdirectory is never larger than its directory, by either size. */
  lemma SubdirEntryNoLarger(n: Node, c: Node)
    requires n.Dir? && c in n.children && c.Dir?
    ensures EntrySize(c) <= EntrySize(n)
  {
    ChildNoLarger(n, c);
  }
}
