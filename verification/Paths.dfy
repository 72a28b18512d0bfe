/** The place in a file system that an absolute path names, whatever way it is written. */
module Paths {
  import opened Lists

  /** The parts of a path between its slashes. */
  function Split(path: string): (parts: seq<string>)
    ensures parts != []
  {
    if path == "" then [""]
    else
      Grow(Split(path[..|path| - 1]), path[|path| - 1])
  }

  /** One more character: a slash starts a new part, anything else extends the last. */
  function Grow(parts: seq<string>, c: char): (r: seq<string>)
    requires parts != []
    ensures r != []
  {
    if c == '/' then parts + [""] else parts[..|parts| - 1] + [parts[|parts| - 1] + [c]]
  }

  /** One step down a path: an empty part or a dot stays, two dots go back, anything else goes down. */
  function Enter(place: seq<string>, part: string): seq<string> {
    if part == "" || part == "." then place
    else if part == ".." then if place == [] then [] else place[..|place| - 1]
    else place + [part]
  }

  function Walk(parts: seq<string>): seq<string> {
    if parts == [] then [] else Enter(Walk(parts[..|parts| - 1]), parts[|parts| - 1])
  }

  /** The normal form: the directory names from the root down. */
  function Normal(path: string): seq<string> {
    Walk(Split(path))
  }

  ghost predicate Inside(place: seq<string>, dir: seq<string>) {
    dir < place
  }

  // --- the canonical way to write a place ---

  function Descent(place: seq<string>): string {
    if place == [] then "" else Descent(place[..|place| - 1]) + "/" + place[|place| - 1]
  }

  function Text(place: seq<string>): string {
    if place == [] then "/" else Descent(place)
  }

  predicate Canonical(path: string) {
    path == Text(Normal(path))
  }

  // --- facts ---

  lemma {:induction false} SplitName(path: string, name: string)
    requires '/' !in name
    ensures Split(path + "/" + name) == Split(path) + [name]
  {
    var whole := path + "/" + name;
    var n := |whole| - 1;
    if name == "" {
      assert whole[..n] == path;
    } else {
      var short := name[..|name| - 1];
      assert whole[..n] == path + "/" + short;
      SplitName(path, short);
      assert short + [name[|name| - 1]] == name;
      assert whole[n] == name[|name| - 1];
      assert name[|name| - 1] in name;
    }
  }

  lemma NormalName(path: string, name: string)
    requires '/' !in name
    ensures Normal(path + "/" + name) == Enter(Normal(path), name)
  {
    SplitName(path, name);
    assert (Split(path) + [name])[..|Split(path)|] == Split(path);
  }

  lemma NormalRoot()
    ensures Normal("") == [] && Normal("/") == []
  {
    assert Split("") == [""] && [""][..0] == [];
    NormalName("", "");
    assert "" + "/" + "" == "/";
  }

  /** A trailing slash changes nothing. */
  lemma NormalSlash(path: string)
    ensures Normal(path + "/") == Normal(path)
  {
    NormalName(path, "");
    assert path + "/" + "" == path + "/";
  }

  lemma GrowLead(parts: seq<string>, c: char)
    requires parts != []
    ensures Grow([""] + parts, c) == [""] + Grow(parts, c)
  {
  }

  lemma {:induction false} SplitLead(path: string)
    ensures Split("/" + path) == [""] + Split(path)
  {
    var whole := "/" + path;
    if path == "" {
      assert whole[..0] == "";
    } else {
      var n := |path| - 1;
      SplitLead(path[..n]);
      assert whole[..|whole| - 1] == "/" + path[..n] && whole[|whole| - 1] == path[n];
      GrowLead(Split(path[..n]), path[n]);
    }
  }

  lemma {:induction false} WalkLead(parts: seq<string>)
    ensures Walk([""] + parts) == Walk(parts)
  {
    if parts == [] {
      assert [""][..0] == [];
    } else {
      var n := |parts| - 1;
      WalkLead(parts[..n]);
      assert ([""] + parts)[..n + 1] == [""] + parts[..n];
    }
  }

  /** Nor does a second slash at the front. */
  lemma NormalLead(path: string)
    ensures Normal("/" + path) == Normal(path)
  {
    SplitLead(path);
    WalkLead(Split(path));
  }

  predicate ProperPart(name: string) {
    name != "" && name != "." && name != ".." && '/' !in name
  }

  lemma NormalChild(path: string, name: string)
    requires ProperPart(name)
    ensures Normal(path + "/" + name) == Normal(path) + [name]
  {
    NormalName(path, name);
  }

  /** The text of a place and the place itself. */
  ghost predicate Writes(path: string, place: seq<string>) {
    Normal(path) == place && Descent(place) == path
  }

  lemma WritesChild(path: string, place: seq<string>, name: string)
    requires Writes(path, place) && ProperPart(name)
    ensures Writes(path + "/" + name, place + [name]) && Canonical(path + "/" + name)
  {
    NormalChild(path, name);
    assert (place + [name])[..|place|] == place;
  }

  /** A place inside another is written as the other with a slash and more. */
  lemma {:induction false} DescentInside(place: seq<string>, dir: seq<string>)
    requires dir != [] && Inside(place, dir)
    ensures Descent(dir) + "/" <= Text(place)
  {
    var n := |place| - 1;
    if |dir| == n {
      assert place[..n] == dir;
    } else {
      assert dir < place[..n];
      DescentInside(place[..n], dir);
    }
  }

  lemma {:induction false} NormalDescent(place: seq<string>)
    requires forall i :: 0 <= i < |place| ==> ProperPart(place[i])
    ensures Normal(Descent(place)) == place
  {
    if place == [] {
      NormalRoot();
    } else {
      var n := |place| - 1;
      NormalDescent(place[..n]);
      NormalChild(Descent(place[..n]), place[n]);
      assert place == place[..n] + [place[n]];
    }
  }

  /** Writing a place down and reading it back. */
  lemma NormalText(place: seq<string>)
    requires forall i :: 0 <= i < |place| ==> ProperPart(place[i])
    ensures Normal(Text(place)) == place
  {
    NormalDescent(place);
    if place == [] {
      NormalRoot();
    }
  }

  lemma {:induction false} PartsHoldNoSlash(path: string)
    ensures forall i :: 0 <= i < |Split(path)| ==> '/' !in Split(path)[i]
  {
    if path != "" {
      PartsHoldNoSlash(path[..|path| - 1]);
    }
  }

  lemma {:induction false} WalkIsProper(parts: seq<string>)
    requires forall i :: 0 <= i < |parts| ==> '/' !in parts[i]
    ensures forall i :: 0 <= i < |Walk(parts)| ==> ProperPart(Walk(parts)[i])
  {
    if parts != [] {
      WalkIsProper(parts[..|parts| - 1]);
    }
  }

  /** The normal form of a normal form is itself, so two ways to write a place have one canonical text. */
  lemma NormalIsStable(path: string)
    ensures Normal(Text(Normal(path))) == Normal(path)
  {
    PartsHoldNoSlash(path);
    WalkIsProper(Split(path));
    NormalText(Normal(path));
  }
}
