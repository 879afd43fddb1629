/** The general helpers `isEmpty` and `toContainerName`. */
module Utils {
  import opened Strings

  /** The values `isEmpty` can be handed: null, undefined, a number, a
      string, an array or a plain object (given by its own enumerable keys). */
  datatype JsValue =
    | Null
    | Undefined
    | Num(n: int)
    | Str(s: string)
    | Arr(items: seq<JsValue>)
    | Obj(keys: seq<string>)

  /** `typeof v === 'object'` for a value other than null. */
  predicate IsObject(v: JsValue) {
    v.Arr? || v.Obj?
  }

  /** `Object.keys(v).length`: an array's keys are its indices. */
  function KeyCount(v: JsValue): nat
    requires IsObject(v)
  {
    if v.Arr? then |v.items| else |v.keys|
  }

  /** `isEmpty(value)`: the chain of tests in source order. */
  predicate IsEmpty(v: JsValue) {
    if v.Null? then true
    else if !v.Num? && v == Str("") then true
    else if v.Undefined? then true
    else if IsObject(v) && KeyCount(v) == 0 then true
    else false
  }

  /** Exactly null, undefined, the empty string and the objects and arrays
      without keys are empty; no number, not even 0, is. */
  lemma IsEmptyIff(v: JsValue)
    ensures IsEmpty(v) <==>
            v.Null? || v.Undefined? || v == Str("") || v == Arr([]) || v == Obj([])
    ensures v.Num? ==> !IsEmpty(v)
  {
  }

  /** `part.charAt(0).toUpperCase() + part.slice(1).toLowerCase()`. */
  function Capitalise(p: string): (r: string)
    ensures |r| == |p|
  {
    if p == [] then [] else [UpperChar(p[0])] + ToLower(p[1..])
  }

  /** The mapped later segments, joined with ''. */
  function CapitaliseAll(ps: seq<string>): (r: string)
    ensures (forall i :: 0 <= i < |ps| ==> '-' !in ps[i]) ==> '-' !in r
    decreases |ps|
  {
    if ps == [] then []
    else
      NoDashCapitalise(ps[0]);
      Capitalise(ps[0]) + CapitaliseAll(ps[1..])
  }

  /** `toContainerName(pluginName)`. */
  function ToContainerName(name: string): (r: string)
    ensures '-' !in r
    ensures EndsWith(r, "Container")
  {
    var parts := Split(name, '-');
    NoDashLower(parts[0]);
    ToLower(parts[0]) + CapitaliseAll(parts[1..]) + "Container"
  }

  lemma NoDashLower(p: string)
    requires '-' !in p
    ensures '-' !in ToLower(p)
  {
    forall i | 0 <= i < |p| ensures ToLower(p)[i] != '-' {
      assert p[i] != '-';
    }
  }

  lemma NoDashCapitalise(p: string)
    ensures '-' !in p ==> '-' !in Capitalise(p)
  {
    if '-' !in p && p != [] {
      NoDashLower(p[1..]);
    }
  }

  /** The reading back of a container name: drop 'Container' and turn every
      capital letter into '-' followed by its lower-case form. */
  function Decamel(s: string): (r: string)
    decreases |s|
  {
    if s == [] then [] else DecamelChar(s[0]) + Decamel(s[1..])
  }

  function DecamelChar(c: char): string {
    if 'A' <= c <= 'Z' then ['-', LowerChar(c)] else [c]
  }

  /** No capital letter and no '-': a segment of a kebab-case name. */
  predicate LowerSegment(p: string) {
    forall i :: 0 <= i < |p| ==> p[i] != '-' && !('A' <= p[i] <= 'Z')
  }

  /** '-' before each segment, joined with ''. */
  function DashEach(ps: seq<string>): string
    decreases |ps|
  {
    if ps == [] then [] else ['-'] + ps[0] + DashEach(ps[1..])
  }

  lemma {:induction false} DecamelAppend(a: string, b: string)
    ensures Decamel(a + b) == Decamel(a) + Decamel(b)
    decreases |a|
  {
    if a != [] {
      var h := DecamelChar(a[0]);
      assert (a + b)[0] == a[0];
      assert (a + b)[1..] == a[1..] + b;
      DecamelAppend(a[1..], b);
      assert Decamel(a + b) == h + Decamel(a[1..] + b);
      assert Decamel(a) == h + Decamel(a[1..]);
    } else {
      assert a + b == b;
    }
  }

  lemma {:induction false} DecamelLower(p: string)
    requires LowerSegment(p)
    ensures Decamel(p) == p && ToLower(p) == p
    decreases |p|
  {
    if p != [] {
      DecamelLower(p[1..]);
      assert [p[0]] + p[1..] == p;
    }
  }

  lemma CaseRoundTrip(c: char)
    requires 'a' <= c <= 'z'
    ensures 'A' <= UpperChar(c) <= 'Z' && LowerChar(UpperChar(c)) == c
  {
  }

  lemma {:induction false} DecamelCapitalise(p: string)
    requires LowerSegment(p) && p != [] && 'a' <= p[0] <= 'z'
    ensures Decamel(Capitalise(p)) == ['-'] + p
  {
    var x, rest := p[0], p[1..];
    assert LowerSegment(rest) by {
      assert forall i :: 0 <= i < |rest| ==> rest[i] == p[i + 1];
    }
    DecamelLower(rest);
    assert Capitalise(p) == [UpperChar(x)] + rest;
    DecamelCons(UpperChar(x), rest);
    CaseRoundTrip(x);
    assert DecamelChar(UpperChar(x)) == ['-'] + [x];
    ConsAssoc('-', x, rest);
    assert [x] + rest == p;
  }

  lemma DecamelCons(x: char, rest: string)
    ensures Decamel([x] + rest) == DecamelChar(x) + Decamel(rest)
  {
    assert ([x] + rest)[1..] == rest;
  }

  lemma ConsAssoc(x: char, y: char, rest: string)
    ensures [x] + [y] + rest == [x] + ([y] + rest)
  {
  }

  lemma {:induction false} DecamelCapitaliseAll(ps: seq<string>)
    requires forall i :: 0 <= i < |ps| ==> LowerSegment(ps[i]) && ps[i] != [] && 'a' <= ps[i][0] <= 'z'
    ensures Decamel(CapitaliseAll(ps)) == DashEach(ps)
    decreases |ps|
  {
    if ps != [] {
      DecamelCapitaliseAll(ps[1..]);
      DecamelAppend(Capitalise(ps[0]), CapitaliseAll(ps[1..]));
      DecamelCapitalise(ps[0]);
    }
  }

  lemma {:induction false} JoinDashEach(parts: seq<string>)
    requires |parts| >= 1
    ensures Join(parts, '-') == parts[0] + DashEach(parts[1..])
    decreases |parts|
  {
    if |parts| > 1 {
      JoinDashEach(parts[1..]);
      assert parts[1..][1..] == parts[2..];
    }
  }

  /** Kebab case round trip: for lower-case segments, every later one
      starting with a letter, reading the container name back gives the
      plugin name, so each '-' became exactly one capital letter. */
  lemma {:induction false} ContainerNameRoundTrip(parts: seq<string>)
    requires |parts| >= 1
    requires forall i :: 0 <= i < |parts| ==> LowerSegment(parts[i])
    requires forall i :: 1 <= i < |parts| ==> parts[i] != [] && 'a' <= parts[i][0] <= 'z'
    ensures var r := ToContainerName(Join(parts, '-'));
            Decamel(r[..|r| - 9]) == Join(parts, '-')
  {
    var name := Join(parts, '-');
    SplitJoin(parts, '-');
    var r := ToContainerName(name);
    var body := ToLower(parts[0]) + CapitaliseAll(parts[1..]);
    assert r == body + "Container";
    assert r[..|r| - 9] == body;
    DecamelLower(parts[0]);
    DecamelAppend(parts[0], CapitaliseAll(parts[1..]));
    DecamelCapitaliseAll(parts[1..]);
    JoinDashEach(parts);
  }

  /** A two-segment name: the second segment is capitalised and appended. */
  lemma {:induction false} TwoSegments(a: string, b: string)
    requires LowerSegment(a) && LowerSegment(b) && b != []
    ensures ToContainerName(a + "-" + b) == a + Capitalise(b) + "Container"
  {
    SplitConcatSep(a, b, '-');
    SplitNoSep(a, '-');
    SplitNoSep(b, '-');
    assert Split(a + "-" + b, '-') == [a, b];
    DecamelLower(a);
    assert CapitaliseAll([b]) == Capitalise(b) + CapitaliseAll([]);
  }

  /** The documented example. */
  lemma {:induction false} SyncSourceContainer(name: string)
    requires name == "sync-source"
    ensures ToContainerName(name) == "syncSourceContainer"
  {
    var a, b := "sync", "source";
    LiteralSplit(name, a, b);
    TwoSegments(a, b);
    CapitaliseSource(b);
    LiteralJoin(a, "Source", "Container");
  }

  lemma LiteralSplit(name: string, a: string, b: string)
    requires name == "sync-source" && a == "sync" && b == "source"
    ensures name == a + "-" + b && LowerSegment(a) && LowerSegment(b) && b != []
  {
    forall i | 0 <= i < 11 ensures name[i] == (a + "-" + b)[i] {
    }
  }

  lemma CapitaliseSource(b: string)
    requires b == "source"
    ensures Capitalise(b) == "Source"
  {
    DecamelLower(b[1..]);
  }

  lemma LiteralJoin(a: string, b: string, c: string)
    requires a == "sync" && b == "Source" && c == "Container"
    ensures a + b + c == "syncSourceContainer"
  {
    forall i | 0 <= i < 19 ensures (a + b + c)[i] == "syncSourceContainer"[i] {
    }
  }
}
