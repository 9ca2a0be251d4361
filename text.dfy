/** String helpers the chat handler relies on: Python's `str.strip()` with no
    argument, `"\n".join(...)`, and `str.split("\n")` as the inverse that shows
    a joined block keeps one line per element. */
module Text {

  /** The characters for which Python's `str.isspace()` holds: those that
      `str.strip()` with no argument removes. */
  const SPACES: set<char> := {
    '\t', '\n', '\U{0B}', '\U{0C}', '\r', '\U{1C}', '\U{1D}', '\U{1E}', '\U{1F}', ' ',
    '\U{85}', '\U{A0}', '\U{1680}',
    '\U{2000}', '\U{2001}', '\U{2002}', '\U{2003}', '\U{2004}', '\U{2005}',
    '\U{2006}', '\U{2007}', '\U{2008}', '\U{2009}', '\U{200A}',
    '\U{2028}', '\U{2029}', '\U{202F}', '\U{205F}', '\U{3000}'
  }

  predicate IsSpace(c: char)
  {
    c in SPACES
  }

  /** The number of whitespace characters `s` starts with. */
  function Lead(s: string): (n: nat)
    ensures n <= |s|
  {
    if s != [] && IsSpace(s[0]) then 1 + Lead(s[1..]) else 0
  }

  /** The number of whitespace characters `s` ends with. */
  function Trail(s: string): (n: nat)
    ensures n <= |s|
  {
    if s != [] && IsSpace(s[|s| - 1]) then 1 + Trail(s[..|s| - 1]) else 0
  }

  /** `Lead(s)` counts exactly the leading run of whitespace. */
  lemma {:induction false} LeadIsSpace(s: string)
    ensures forall i :: 0 <= i < Lead(s) ==> IsSpace(s[i])
    ensures Lead(s) < |s| ==> !IsSpace(s[Lead(s)])
  {
    if s != [] && IsSpace(s[0]) {
      LeadIsSpace(s[1..]);
    }
  }

  /** `Trail(s)` counts exactly the trailing run of whitespace. */
  lemma {:induction false} TrailIsSpace(s: string)
    ensures forall i :: |s| - Trail(s) <= i < |s| ==> IsSpace(s[i])
    ensures Trail(s) < |s| ==> !IsSpace(s[|s| - Trail(s) - 1])
  {
    if s != [] && IsSpace(s[|s| - 1]) {
      TrailIsSpace(s[..|s| - 1]);
    }
  }

  /** Python's `s.strip()` with no argument. */
  function Strip(s: string): string
  {
    var t := s[Lead(s)..];
    t[..|t| - Trail(t)]
  }

  /** `Strip(s)` is the slice of `s` that starts after the leading
      whitespace; every character outside it is whitespace, and it neither
      starts nor ends with whitespace. */
  lemma StripSpec(s: string)
    ensures var k := Lead(s); var r := Strip(s);
            && k + |r| <= |s|
            && r == s[k..k + |r|]
            && (forall i :: 0 <= i < k ==> IsSpace(s[i]))
            && (forall i :: k + |r| <= i < |s| ==> IsSpace(s[i]))
            && (r != [] ==> !IsSpace(r[0]) && !IsSpace(r[|r| - 1]))
  {
    var k := Lead(s);
    var t := s[k..];
    LeadIsSpace(s);
    TrailIsSpace(t);
    var r := Strip(s);
    assert r == t[..|t| - Trail(t)];
    forall i | k + |r| <= i < |s| ensures IsSpace(s[i]) {
      assert s[i] == t[i - k];
    }
    if r != [] {
      assert r[0] == s[k];
    }
  }

  /** A text strips to nothing exactly when it is all whitespace. */
  lemma StripEmpty(s: string)
    ensures Strip(s) == [] <==> forall i :: 0 <= i < |s| ==> IsSpace(s[i])
  {
    StripSpec(s);
    var k := Lead(s);
    if Strip(s) != [] {
      assert s[k] == Strip(s)[0];
    }
  }

  /** Stripping a second time changes nothing. */
  lemma StripIdempotent(s: string)
    ensures Strip(Strip(s)) == Strip(s)
  {
    var r := Strip(s);
    StripSpec(s);
    if r != [] {
      assert Lead(r) == 0;
      assert r[0..] == r;
      assert Trail(r) == 0;
    }
  }

  /** Python's `"\n".join(lines)`. */
  function Join(lines: seq<string>): string
  {
    if |lines| == 0 then ""
    else if |lines| == 1 then lines[0]
    else lines[0] + "\n" + Join(lines[1..])
  }

  /** Joining one more line adds a separator and that line at the end. */
  lemma {:induction false} JoinSnoc(lines: seq<string>, last: string)
    requires lines != []
    ensures Join(lines + [last]) == Join(lines) + "\n" + last
  {
    if |lines| > 1 {
      JoinSnoc(lines[1..], last);
      assert (lines + [last])[1..] == lines[1..] + [last];
    }
  }

  /** Python's `s.split("\n")`: the pieces between newlines, always at least one. */
  function Split(s: string): (pieces: seq<string>)
    ensures |pieces| >= 1
  {
    if s == [] then [""]
    else if s[0] == '\n' then [""] + Split(s[1..])
    else
      var rest := Split(s[1..]);
      [[s[0]] + rest[0]] + rest[1..]
  }

  /** A newline-free text glued in front of `t` extends the first piece only. */
  lemma {:induction false} SplitPrefix(x: string, t: string)
    requires '\n' !in x
    ensures Split(x + t) == [x + Split(t)[0]] + Split(t)[1..]
  {
    if x == [] {
      assert x + t == t;
      assert x + Split(t)[0] == Split(t)[0];
      assert [Split(t)[0]] + Split(t)[1..] == Split(t);
    } else {
      assert x[0] in x;
      assert (x + t)[0] == x[0];
      assert (x + t)[1..] == x[1..] + t;
      SplitPrefix(x[1..], t);
      assert [x[0]] + (x[1..] + Split(t)[0]) == x + Split(t)[0];
    }
  }

  /** Splitting undoes joining, as long as no line contains a newline. */
  lemma {:induction false} SplitJoin(lines: seq<string>)
    requires lines != []
    requires forall i :: 0 <= i < |lines| ==> '\n' !in lines[i]
    ensures Split(Join(lines)) == lines
  {
    if |lines| == 1 {
      SplitPrefix(lines[0], "");
      assert lines[0] + "" == lines[0];
    } else {
      var rest := Join(lines[1..]);
      SplitJoin(lines[1..]);
      assert Join(lines) == lines[0] + ("\n" + rest);
      SplitPrefix(lines[0], "\n" + rest);
      assert ("\n" + rest)[1..] == rest;
      assert Split("\n" + rest) == [""] + lines[1..];
      assert lines[0] + "" == lines[0];
      assert lines == [lines[0]] + lines[1..];
    }
  }
}
