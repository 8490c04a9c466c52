/** The test whether a path of a task stays inside the repository. It works on the parts of a POSIX
    path and reads the first one, which need not exist. */
module RepositoryPaths {

  datatype PathVerdict = Inside | Escapes | IndexError

  /** value.replace("\\", "/") */
  function Normalized(s: string): (r: string)
    ensures |r| == |s| && forall i | 0 <= i < |s| :: r[i] == if s[i] == '\\' then '/' else s[i]
  {
    seq(|s|, i requires 0 <= i < |s| => if s[i] == '\\' then '/' else s[i])
  }

  /** The components between slashes, empty ones included. */
  function Split(s: string): (r: seq<string>)
    ensures |r| >= 1
  {
    if s == [] then [[]]
    else if s[0] == '/' then [[]] + Split(s[1..])
    else [[s[0]] + Split(s[1..])[0]] + Split(s[1..])[1..]
  }

  function Join(parts: seq<string>): string
    requires |parts| >= 1
  {
    if |parts| == 1 then parts[0] else parts[0] + ['/'] + Join(parts[1..])
  }

  /** Splitting loses nothing, and no component holds a slash. */
  lemma {:induction false} SplitJoins(s: string)
    ensures Join(Split(s)) == s
    ensures forall part | part in Split(s) :: '/' !in part
  {
    if s != [] {
      var rest := Split(s[1..]);
      SplitJoins(s[1..]);
      assert s == [s[0]] + s[1..];
      if s[0] == '/' {
        assert Split(s)[1..] == rest;
      } else {
        var first := [s[0]] + rest[0];
        assert Split(s) == [first] + rest[1..] && ([first] + rest[1..])[1..] == rest[1..];
        assert |rest| > 1 ==> first + ['/'] + Join(rest[1..]) == [s[0]] + (rest[0] + ['/'] + Join(rest[1..]));
      }
    }
  }

  /** Components that a path object drops. */
  predicate IsBlank(part: string) {
    part == [] || part == ['.']
  }

  /** PurePosixPath(...).parts of a path that is not absolute. */
  function Parts(components: seq<string>): (r: seq<string>)
    ensures forall part :: part in r <==> part in components && !IsBlank(part)
  {
    if components == [] then []
    else (if IsBlank(components[0]) then [] else [components[0]]) + Parts(components[1..])
  }

  /** _is_repository_relative, with its index error. */
  function CheckPath(value: string): PathVerdict {
    var path := Normalized(value);
    if path == [] || path[0] == '/' then Escapes
    else
      var parts := Parts(Split(path));
      if ['.', '.'] in parts then Escapes
      else if parts == [] then IndexError
      else if ':' in parts[0] then Escapes
      else Inside
  }

  /** Every component is blank. */
  ghost predicate AllBlank(s: string) {
    forall part | part in Split(s) :: IsBlank(part)
  }

  /** Nothing but slashes and single dots. */
  ghost predicate DotsAndSlashes(s: string) {
    && (forall i | 0 <= i < |s| :: s[i] == '/' || s[i] == '.')
    && (forall i, j | 0 <= i < j < |s| && j == i + 1 :: s[i] == '/' || s[j] == '/')
  }

  lemma DotsAndSlashesTail(s: string)
    requires s != []
    ensures DotsAndSlashes(s) <==>
              (s[0] == '/' || (s[0] == '.' && (|s| == 1 || s[1] == '/'))) && DotsAndSlashes(s[1..])
  {
    var t := s[1..];
    assert forall i | 0 <= i < |t| :: t[i] == s[i + 1];
    if DotsAndSlashes(s) {
      forall i, j | 0 <= i < j < |t| && j == i + 1 ensures t[i] == '/' || t[j] == '/' {
        assert s[i + 1] == '/' || s[j + 1] == '/';
      }
      assert |s| > 1 ==> s[0] == '/' || s[1] == '/';
    }
    if (s[0] == '/' || (s[0] == '.' && (|s| == 1 || s[1] == '/'))) && DotsAndSlashes(t) {
      forall i | 0 <= i < |s| ensures s[i] == '/' || s[i] == '.' {
        if i > 0 { assert t[i - 1] == '/' || t[i - 1] == '.'; }
      }
      forall i, j | 0 <= i < j < |s| && j == i + 1 ensures s[i] == '/' || s[j] == '/' {
        if i > 0 { assert t[i - 1] == '/' || t[j - 1] == '/'; }
      }
    }
  }

  lemma FirstComponent(s: string)
    ensures Split(s)[0] == [] <==> s == [] || s[0] == '/'
  {
  }

  lemma {:induction false} BlankIff(s: string)
    ensures AllBlank(s) <==> DotsAndSlashes(s)
  {
    if s != [] {
      var rest, t := Split(s[1..]), s[1..];
      BlankIff(t);
      DotsAndSlashesTail(s);
      FirstComponent(t);
      assert rest == [rest[0]] + rest[1..];
      if s[0] == '/' {
        assert Split(s) == [[]] + rest;
        assert forall part :: part in Split(s) <==> part == [] || part in rest;
      } else {
        var first := [s[0]] + rest[0];
        assert Split(s) == [first] + rest[1..];
        assert forall part :: part in Split(s) <==> part == first || part in rest[1..];
        assert |first| == 1 + |rest[0]| && first[0] == s[0];
        assert rest[0] == [] ==> first == [s[0]];
        assert IsBlank(first) <==> s[0] == '.' && rest[0] == [];
      }
    }
  }

  /** The test raises exactly on the paths that are written with single dots and slashes of either
      kind alone and begin with a dot. */
  lemma RaisesIff(value: string)
    ensures CheckPath(value) == IndexError <==>
              value != [] && value[0] == '.' && DotsAndSlashes(Normalized(value))
  {
    var path := Normalized(value);
    var parts := Parts(Split(path));
    BlankIff(path);
    assert parts != [] ==> parts[0] in parts;
    if !AllBlank(path) {
      var part :| part in Split(path) && !IsBlank(part);
      assert part in parts;
    }
  }

  /** How far below its start a walk along the first k components ends. */
  function Depth(components: seq<string>, k: nat): int
    requires k <= |components|
  {
    if k == 0 then 0
    else Depth(components, k - 1)
         + (if IsBlank(components[k - 1]) then 0 else if components[k - 1] == ['.', '.'] then -1 else 1)
  }

  lemma {:induction false} NeverClimbs(components: seq<string>, j: nat, k: nat)
    requires ['.', '.'] !in components && j <= k <= |components|
    ensures 0 <= Depth(components, j) <= Depth(components, k)
    ensures j < k && !IsBlank(components[j]) ==> Depth(components, j) < Depth(components, k)
    decreases j + k
  {
    if j < k {
      NeverClimbs(components, j, k - 1);
      assert components[k - 1] in components;
    } else if j > 0 {
      NeverClimbs(components, j - 1, j);
    }
  }

  /** Walking along a path that passes never leads above the repository and ends below its root. */
  lemma InsideStaysInside(value: string, k: nat)
    requires CheckPath(value) == Inside && k <= |Split(Normalized(value))|
    ensures value[0] != '/' && value[0] != '\\'
    ensures Depth(Split(Normalized(value)), k) >= 0
    ensures Depth(Split(Normalized(value)), |Split(Normalized(value))|) >= 1
  {
    var components := Split(Normalized(value));
    var parts := Parts(components);
    assert !IsBlank(['.', '.']);
    assert parts[0] in parts;
    var j :| 0 <= j < |components| && components[j] == parts[0];
    NeverClimbs(components, k, k);
    NeverClimbs(components, j, |components|);
  }
}
