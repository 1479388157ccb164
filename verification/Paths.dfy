/** A path's components, as the standard library reads them: empty parts and inner dots do not count. */
module Paths {
  import opened Text

  datatype Component = RootDir | CurDir | ParentDir | Normal(name: string)

  predicate Ignored(part: string) {
    part == "" || part == "."
  }

  function PartComponents(parts: seq<string>): seq<Component> {
    if parts == [] then []
    else
      (if Ignored(parts[0]) then [] else if parts[0] == ".." then [ParentDir] else [Normal(parts[0])])
      + PartComponents(parts[1..])
  }

  function Components(path: string): seq<Component> {
    var parts := Split(path, '/');
    (if path != [] && path[0] == '/' then [RootDir] else if parts[0] == "." then [CurDir] else [])
    + PartComponents(parts)
  }

  lemma {:induction false} PartsHaveNoStart(parts: seq<string>)
    ensures forall i :: 0 <= i < |PartComponents(parts)| ==>
              PartComponents(parts)[i].ParentDir? || PartComponents(parts)[i].Normal?
  {
    if parts != [] {
      PartsHaveNoStart(parts[1..]);
    }
  }

  lemma FirstPart(path: string)
    requires path != []
    ensures path[0] == '/' ==> Split(path, '/')[0] == ""
    ensures Split(path, '/')[0] == "." <==> path == "." || (|path| > 1 && path[0] == '.' && path[1] == '/')
  {
    SplitIsExact(path, '/');
    var parts := Split(path, '/');
    assert parts[0] in parts;
    if |parts| == 1 {
      assert parts[0] == path;
    } else {
      assert path == parts[0] + ['/'] + Join(parts[1..], '/');
      assert |path| > |parts[0]| && path[|parts[0]|] == '/';
      assert |parts[0]| > 1 ==> path[1] == parts[0][1] != '/';
      assert |parts[0]| > 0 ==> path[0] == parts[0][0] != '/';
    }
  }

  /** A path begins with the root exactly if it starts with a slash, and with the current directory exactly if
      it is a dot or starts with one and a slash; nothing else but names and steps up follows. */
  lemma ComponentsMean(path: string)
    requires path != []
    ensures var parts := Components(path);
      && (parts != [] && parts[0] == RootDir <==> path[0] == '/')
      && (parts != [] && parts[0] == CurDir <==> path == "." || (|path| > 1 && path[0] == '.' && path[1] == '/'))
      && forall i :: 0 < i < |parts| ==> parts[i].ParentDir? || parts[i].Normal?
  {
    FirstPart(path);
    PartsHaveNoStart(Split(path, '/'));
  }

  predicate IsName(name: string) {
    !Ignored(name) && name != ".." && '/' !in name
  }

  lemma {:induction false} SplitsNowhere(text: string, at: char)
    requires at !in text
    ensures Split(text, at) == [text]
  {
    if text != [] {
      SplitsNowhere(text[1..], at);
      assert text[0] in text && [text[0]] + text[1..] == text;
    }
  }

  lemma {:induction false} SplitsOnce(a: string, at: char, b: string)
    requires at !in a
    ensures Split(a + [at] + b, at) == [a] + Split(b, at)
  {
    var text := a + [at] + b;
    if a == [] {
      assert text[1..] == b;
    } else {
      assert text[1..] == a[1..] + [at] + b;
      SplitsOnce(a[1..], at, b);
      assert a[0] in a && text[0] == a[0] && [a[0]] + a[1..] == a;
      assert ([a[1..]] + Split(b, at))[1..] == Split(b, at);
    }
  }

  lemma OneName(name: string)
    requires IsName(name)
    ensures Components(name) == [Normal(name)]
  {
    SplitsNowhere(name, '/');
    assert PartComponents([name][1..]) == [];
  }

  lemma TwoNames(first: string, second: string)
    requires IsName(first) && IsName(second)
    ensures Components(first + ['/'] + second) == [Normal(first), Normal(second)]
  {
    SplitsOnce(first, '/', second);
    SplitsNowhere(second, '/');
    var parts := [first] + [second];
    assert parts[1..] == [second] && parts[1..][1..] == [];
    assert PartComponents(parts[1..]) == [Normal(second)] + PartComponents([]);
    assert (first + ['/'] + second)[0] == first[0];
  }

}
