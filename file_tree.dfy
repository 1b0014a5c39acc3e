/** The working directory as a finite tree of named entries with byte sizes:
    the part of the filesystem that `os.walk`, `os.path.isfile`,
    `os.path.isdir` and `Path.rglob` look at. */
module FileTree {
  import opened Wrappers
  import Text

  /** An entry and its own `st_size`; a directory also lists its entries in
      the order the walk visits them. */
  datatype Node =
    | File(name: string, size: nat)
    | Dir(name: string, size: nat, children: seq<Node>)

  /** Number of entries in a tree, the entry itself included. */
  function Count(n: Node): (c: nat)
    ensures c >= 1
  {
    match n
    case File(_, _) => 1
    case Dir(_, _, cs) => 1 + CountAll(cs)
  }

  function CountAll(ns: seq<Node>): nat
  {
    if ns == [] then 0 else Count(ns[0]) + CountAll(ns[1..])
  }

  lemma {:induction false} CountAllAppend(a: seq<Node>, b: seq<Node>)
    ensures CountAll(a + b) == CountAll(a) + CountAll(b)
  {
    if a == [] {
      assert a + b == b;
    } else {
      assert (a + b)[1..] == a[1..] + b;
      CountAllAppend(a[1..], b);
    }
  }

  /** The sub-directories of a directory, in listing order: `os.walk`'s `dirs`. */
  function SubDirs(ns: seq<Node>): (ds: seq<Node>)
    ensures forall i :: 0 <= i < |ds| ==> ds[i].Dir? && ds[i] in ns
    ensures forall n :: n in ds <==> n in ns && n.Dir?
    ensures CountAll(ds) <= CountAll(ns)
  {
    if ns == [] then []
    else
      assert forall n :: n in ns <==> n == ns[0] || n in ns[1..];
      if ns[0].Dir? then [ns[0]] + SubDirs(ns[1..])
      else SubDirs(ns[1..])
  }

  /** The other entries of a directory, in listing order: `os.walk`'s `files`. */
  function Files(ns: seq<Node>): (fs: seq<Node>)
    ensures forall i :: 0 <= i < |fs| ==> fs[i].File? && fs[i] in ns
    ensures forall n :: n in fs <==> n in ns && n.File?
  {
    if ns == [] then []
    else
      assert forall n :: n in ns <==> n == ns[0] || n in ns[1..];
      if ns[0].File? then [ns[0]] + Files(ns[1..])
      else Files(ns[1..])
  }

  /** `os.path.join(root, name)`: `name` itself when it is absolute;
      otherwise `root`, a `/` unless `root` is empty or already ends with one,
      and then `name`. */
  function JoinPath(root: string, name: string): (p: string)
    ensures name != [] && name[0] == '/' ==> p == name
    ensures !(name != [] && name[0] == '/') ==>
      var sep := if root == [] || root[|root| - 1] == '/' then [] else "/";
      |p| == |root| + |sep| + |name| && p[..|root|] == root &&
      p[|root|..|root| + |sep|] == sep && p[|root| + |sep|..] == name
  {
    if name != [] && name[0] == '/' then name
    else if root == [] || root[|root| - 1] == '/' then root + name
    else root + "/" + name
  }

  /** The components of a relative path that name an entry: `.` and empty
      components (`./a//b`) name the directory they are in. */
  function Components(path: string): seq<string>
  {
    Names(Text.Split(path, '/'))
  }

  function Names(parts: seq<string>): (r: seq<string>)
    ensures forall i :: 0 <= i < |r| ==> r[i] != "" && r[i] != "."
  {
    if parts == [] then []
    else if parts[0] == "" || parts[0] == "." then Names(parts[1..])
    else [parts[0]] + Names(parts[1..])
  }

  /** The first entry called `name` in a listing. */
  function Find(ns: seq<Node>, name: string): (r: Option<Node>)
    ensures r.Some? ==> r.value in ns && r.value.name == name
    ensures r.None? ==> forall i :: 0 <= i < |ns| ==> ns[i].name != name
  {
    if ns == [] then None
    else if ns[0].name == name then Some(ns[0])
    else Find(ns[1..], name)
  }

  /** The entry a path names, starting from the working directory `root`. */
  function Lookup(root: Node, path: string): Option<Node>
  {
    Resolve(root, Components(path))
  }

  function Resolve(n: Node, names: seq<string>): Option<Node>
    decreases |names|
  {
    if names == [] then Some(n)
    else if n.File? then None
    else
      match Find(n.children, names[0])
      case None => None
      case Some(c) => Resolve(c, names[1..])
  }
}
