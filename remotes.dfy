/** The dictionary `__get_remotes_list` builds from the output of `dvc remote
    list`, whose lines are `<name>\t<url>`. A Python dict keeps its keys in
    the order they were first inserted, and assigning to a present key keeps
    its place, so the dictionary is an association list with distinct names. */
module DvcRemotes {
  import opened Wrappers
  import opened Text

  datatype Remote = Remote(name: string, url: string)

  /** `list(remotes.keys())`. */
  function Keys(d: seq<Remote>): (names: seq<string>)
    ensures |names| == |d| && forall i :: 0 <= i < |d| ==> names[i] == d[i].name
  {
    if d == [] then [] else [d[0].name] + Keys(d[1..])
  }

  predicate Distinct(names: seq<string>)
  {
    forall i, j :: 0 <= i < j < |names| ==> names[i] != names[j]
  }

  /** `remotes.get(name)`. */
  function Get(d: seq<Remote>, name: string): (r: Option<string>)
    ensures r.None? <==> name !in Keys(d)
  {
    if d == [] then None else if d[0].name == name then Some(d[0].url) else Get(d[1..], name)
  }

  /** `remotes[name] = url`: replaces the URL in place when the name is
      present, otherwise appends the pair. */
  function Put(d: seq<Remote>, name: string, url: string): (d': seq<Remote>)
    ensures Keys(d') == if name in Keys(d) then Keys(d) else Keys(d) + [name]
  {
    if d == [] then [Remote(name, url)]
    else if d[0].name == name then [Remote(name, url)] + d[1..]
    else
      var rest := Put(d[1..], name, url);
      assert Keys([d[0]] + rest) == [d[0].name] + Keys(rest);
      [d[0]] + rest
  }

  /** After the assignment the name maps to the new URL and every other
      name keeps its entry. */
  lemma {:induction false} PutGet(d: seq<Remote>, name: string, url: string, m: string)
    ensures Get(Put(d, name, url), m) == if m == name then Some(url) else Get(d, m)
  {
    if d != [] && d[0].name != name {
      PutGet(d[1..], name, url, m);
      assert ([d[0]] + Put(d[1..], name, url))[1..] == Put(d[1..], name, url);
    }
  }

  lemma PutKeepsDistinct(d: seq<Remote>, name: string, url: string)
    requires Distinct(Keys(d))
    ensures Distinct(Keys(Put(d, name, url)))
  {
  }

  /** `line.split("\t")` has exactly two fields and the first is `name`. */
  predicate Defines(line: string, name: string)
  {
    var f := Split(line, '\t');
    |f| == 2 && f[0] == name
  }

  /** The dictionary after the loop over the first lines of the output. */
  function Parsed(lines: seq<string>): seq<Remote>
  {
    if lines == [] then []
    else
      var d := Parsed(lines[..|lines| - 1]);
      var f := Split(lines[|lines| - 1], '\t');
      if |f| == 2 then Put(d, f[0], f[1]) else d
  }

  /** No name appears twice. */
  lemma {:induction false} ParsedDistinct(lines: seq<string>)
    ensures Distinct(Keys(Parsed(lines)))
  {
    if lines != [] {
      var d := Parsed(lines[..|lines| - 1]);
      ParsedDistinct(lines[..|lines| - 1]);
      var f := Split(lines[|lines| - 1], '\t');
      if |f| == 2 {
        PutKeepsDistinct(d, f[0], f[1]);
      }
    }
  }

  /** A name is in the dictionary exactly when some line defines it. */
  lemma {:induction false} ParsedNames(lines: seq<string>, name: string)
    ensures name in Keys(Parsed(lines)) <==> exists i :: 0 <= i < |lines| && Defines(lines[i], name)
  {
    if lines != [] {
      var init := lines[..|lines| - 1];
      ParsedNames(init, name);
      if exists i :: 0 <= i < |init| && Defines(init[i], name) {
        var i :| 0 <= i < |init| && Defines(init[i], name);
        assert Defines(lines[i], name);
      }
      if exists i :: 0 <= i < |lines| && Defines(lines[i], name) {
        var i :| 0 <= i < |lines| && Defines(lines[i], name);
        if i < |init| {
          assert Defines(init[i], name);
        }
      }
    }
  }

  /** The URL of a name is the second field of the last line that defines
      it: a later line overwrites an earlier one. */
  lemma {:induction false} ParsedLast(lines: seq<string>, i: int, name: string)
    requires 0 <= i < |lines| && Defines(lines[i], name)
    requires forall j :: i < j < |lines| ==> !Defines(lines[j], name)
    ensures Get(Parsed(lines), name) == Some(Split(lines[i], '\t')[1])
  {
    var init := lines[..|lines| - 1];
    var f := Split(lines[|lines| - 1], '\t');
    if i < |lines| - 1 {
      ParsedLast(init, i, name);
      assert !Defines(lines[|lines| - 1], name);
      if |f| == 2 {
        PutGet(Parsed(init), f[0], f[1], name);
      }
    } else {
      PutGet(Parsed(init), f[0], f[1], name);
    }
  }
}
