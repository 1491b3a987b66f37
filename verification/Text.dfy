/** Splitting, joining and stripping text, as the scripts use them. */
module Text {

  function Split(s: string, sep: char): (parts: seq<string>)
    ensures |parts| >= 1
  {
    if s == [] then [[]]
    else
      var rest := Split(s[1..], sep);
      if s[0] == sep then [[]] + rest else [[s[0]] + rest[0]] + rest[1..]
  }

  function Join(parts: seq<string>, sep: char): string
    requires |parts| >= 1
  {
    if |parts| == 1 then parts[0] else parts[0] + [sep] + Join(parts[1..], sep)
  }

  function Count(s: string, c: char): nat {
    if s == [] then 0 else Count(s[1..], c) + if s[0] == c then 1 else 0
  }

  /** One part more than there are separators. */
  lemma {:induction false} SplitCount(s: string, sep: char)
    ensures |Split(s, sep)| == Count(s, sep) + 1
  {
    if s != [] { SplitCount(s[1..], sep); }
  }

  lemma {:induction false} SplitNone(s: string, sep: char)
    requires sep !in s
    ensures Split(s, sep) == [s]
  {
    if s != [] {
      SplitNone(s[1..], sep);
      assert s == [s[0]] + s[1..];
    }
  }

  lemma {:induction false} SplitFirst(s: string, t: string, sep: char)
    requires sep !in s
    ensures Split(s + [sep] + t, sep) == [s] + Split(t, sep)
  {
    if s == [] {
      assert s + [sep] + t == [sep] + t;
      assert ([sep] + t)[1..] == t;
    } else {
      SplitFirst(s[1..], t, sep);
      assert (s + [sep] + t)[1..] == s[1..] + [sep] + t;
      assert s == [s[0]] + s[1..];
    }
  }

  predicate Without(parts: seq<string>, c: char) {
    forall k :: 0 <= k < |parts| ==> c !in parts[k]
  }

  /** Splitting undoes joining when no part contains the separator. */
  lemma {:induction false} SplitJoin(parts: seq<string>, sep: char)
    requires |parts| >= 1 && Without(parts, sep)
    ensures Split(Join(parts, sep), sep) == parts
  {
    if |parts| == 1 {
      SplitNone(parts[0], sep);
    } else {
      SplitJoin(parts[1..], sep);
      SplitFirst(parts[0], Join(parts[1..], sep), sep);
    }
  }

  lemma {:induction false} JoinWithout(parts: seq<string>, sep: char, c: char)
    requires |parts| >= 1 && c != sep && Without(parts, c)
    ensures c !in Join(parts, sep)
  {
    if |parts| > 1 { JoinWithout(parts[1..], sep, c); }
  }

  /** Writing one more part behind a joined text. */
  lemma {:induction false} JoinAppend(parts: seq<string>, x: string, sep: char)
    requires |parts| >= 1
    ensures Join(parts + [x], sep) == Join(parts, sep) + [sep] + x
  {
    assert (parts + [x])[1..] == parts[1..] + [x];
    if |parts| > 1 {
      JoinAppend(parts[1..], x, sep);
      assert parts[0] + [sep] + (Join(parts[1..], sep) + [sep] + x)
          == parts[0] + [sep] + Join(parts[1..], sep) + [sep] + x;
    }
  }

  predicate IsSpace(c: char) {
    c == ' ' || c == '\t' || c == '\n' || c == '\r' || c == '\U{0B}' || c == '\U{0C}'
  }

  function StripLeft(s: string): string {
    if s != [] && IsSpace(s[0]) then StripLeft(s[1..]) else s
  }

  function StripRight(s: string): string {
    if s != [] && IsSpace(s[|s| - 1]) then StripRight(s[..|s| - 1]) else s
  }

  function Strip(s: string): string {
    StripRight(StripLeft(s))
  }

  /** Text that neither starts nor ends with white space is unchanged, also with a line end
      behind it. */
  lemma StripLine(s: string)
    requires s != [] && !IsSpace(s[0]) && !IsSpace(s[|s| - 1])
    ensures Strip(s) == s && Strip(s + ['\n']) == s
  {
    assert (s + ['\n'])[..|s|] == s;
  }

  predicate AllSpace(s: string) {
    forall k :: 0 <= k < |s| ==> IsSpace(s[k])
  }

  lemma {:induction false} StripLeftSpace(u: string, t: string)
    requires AllSpace(u) && (t == "" || !IsSpace(t[0]))
    ensures StripLeft(u + t) == t
  {
    if u == "" {
      assert u + t == t;
    } else {
      assert (u + t)[1..] == u[1..] + t;
      StripLeftSpace(u[1..], t);
    }
  }

  lemma {:induction false} StripRightSpace(t: string, v: string)
    requires AllSpace(v) && (t == "" || !IsSpace(t[|t| - 1]))
    ensures StripRight(t + v) == t
  {
    if v == "" {
      assert t + v == t;
    } else {
      assert (t + v)[..|t + v| - 1] == t + v[..|v| - 1];
      StripRightSpace(t, v[..|v| - 1]);
    }
  }

  /** Stripping takes exactly the white space around a text. */
  lemma StripSpace(u: string, t: string, v: string)
    requires AllSpace(u) && AllSpace(v) && t != "" && !IsSpace(t[0]) && !IsSpace(t[|t| - 1])
    ensures Strip(u + t + v) == t
  {
    assert u + t + v == u + (t + v);
    StripLeftSpace(u, t + v);
    StripRightSpace(t, v);
  }

  /** The lines of a text, each with its line end. */
  function Lines(s: string): seq<string> {
    if s == [] then []
    else
      var rest := Lines(s[1..]);
      if s[0] == '\n' || rest == [] then [[s[0]]] + rest else [[s[0]] + rest[0]] + rest[1..]
  }

  lemma {:induction false} LinesFirst(s: string, t: string)
    requires '\n' !in s
    ensures Lines(s + ['\n'] + t) == [s + ['\n']] + Lines(t)
  {
    var all := s + ['\n'] + t;
    if s == [] {
      assert all[1..] == t;
      assert s + ['\n'] == [all[0]];
    } else {
      LinesFirst(s[1..], t);
      assert all[1..] == s[1..] + ['\n'] + t;
      assert s + ['\n'] == [s[0]] + (s[1..] + ['\n']);
    }
  }
}
