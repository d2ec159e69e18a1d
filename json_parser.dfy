/** The cleaner applied to an LLM's raw reply before it is parsed as JSON
    (clean_json_response in servers/fastapi/utils/json_parser.py): strip the
    surrounding whitespace, unwrap a Markdown code fence, and drop a comma that
    stands, possibly followed by whitespace, right before a closing brace or
    bracket. Every step only deletes characters or replaces a run by a single
    shorter one. */
module JsonParser {

  /** The three backticks that open and close a Markdown code block. */
  const Fence: string := "```"

  /** Python's whitespace: the characters for which str.isspace holds, which are
      also what str.strip removes and what \s matches in a str pattern. */
  predicate IsSpace(c: char) {
    || c in {'\t', '\n', '\U{B}', '\U{C}', '\r', '\U{1C}', '\U{1D}', '\U{1E}', '\U{1F}', ' '}
    || c in {'\U{85}', '\U{A0}', '\U{1680}', '\U{2028}', '\U{2029}', '\U{202F}', '\U{205F}', '\U{3000}'}
    || '\U{2000}' <= c <= '\U{200A}'
  }

  predicate AllSpace(s: string) {
    forall i :: 0 <= i < |s| ==> IsSpace(s[i])
  }

  /** The two characters the cleaner removes a dangling comma before. */
  predicate IsCloser(c: char) {
    c == '}' || c == ']'
  }

  // ---------------------------------------------------------------------------
  // str.lstrip, str.rstrip and str.strip

  /** str.lstrip(): the longest suffix that does not start with whitespace. */
  function TrimStart(s: string): (r: string)
    ensures |r| <= |s| && r == s[|s| - |r|..]
    ensures AllSpace(s[..|s| - |r|])
    ensures r == [] || !IsSpace(r[0])
  {
    if s != [] && IsSpace(s[0]) then TrimStart(s[1..]) else s
  }

  /** str.rstrip(): the longest prefix that does not end with whitespace. */
  function TrimEnd(s: string): (r: string)
    ensures |r| <= |s| && r == s[..|r|]
    ensures AllSpace(s[|r|..])
    ensures r == [] || !IsSpace(r[|r| - 1])
  {
    if s != [] && IsSpace(s[|s| - 1]) then
      var r := TrimEnd(s[..|s| - 1]);
      assert s[|r|..] == s[..|s| - 1][|r|..] + [s[|s| - 1]];
      AllSpaceAppend(s[..|s| - 1][|r|..], [s[|s| - 1]]);
      r
    else s
  }

  /** str.strip(). */
  function Strip(s: string): (r: string)
    ensures |r| <= |s|
    ensures r == [] || (!IsSpace(r[0]) && !IsSpace(r[|r| - 1]))
  {
    TrimEnd(TrimStart(s))
  }

  lemma {:induction false} TrimStartPadded(w: string, x: string)
    requires AllSpace(w) && (x == [] || !IsSpace(x[0]))
    ensures TrimStart(w + x) == x
  {
    if w != [] {
      assert (w + x)[1..] == w[1..] + x;
      TrimStartPadded(w[1..], x);
    }
  }

  lemma {:induction false} TrimEndPadded(x: string, w: string)
    requires AllSpace(w) && (x == [] || !IsSpace(x[|x| - 1]))
    ensures TrimEnd(x + w) == x
  {
    if w != [] {
      assert (x + w)[..|x + w| - 1] == x + w[..|w| - 1];
      TrimEndPadded(x, w[..|w| - 1]);
    } else {
      assert x + w == x;
    }
  }

  /** Stripping removes exactly the whitespace around a text that neither starts
      nor ends with whitespace. */
  lemma StripPadded(w1: string, x: string, w2: string)
    requires AllSpace(w1) && AllSpace(w2)
    requires x == [] || (!IsSpace(x[0]) && !IsSpace(x[|x| - 1]))
    ensures Strip(w1 + x + w2) == x
  {
    assert w1 + x + w2 == w1 + (x + w2);
    if x == [] {
      assert x + w2 == w2;
      TrimStartPadded(w1 + w2, []);
      assert w1 + w2 + [] == w1 + w2;
    } else {
      TrimStartPadded(w1, x + w2);
    }
    TrimEndPadded(x, w2);
  }

  /** Proof helper: concatenation is associative. */
  lemma AppendAssoc(a: string, b: string, c: string)
    ensures a + (b + c) == (a + b) + c
  {
  }

  /** Proof helper: whitespace followed by whitespace is whitespace. */
  lemma AllSpaceAppend(a: string, b: string)
    requires AllSpace(a) && AllSpace(b)
    ensures AllSpace(a + b)
  {
  }

  /** Every text is its stripped form with whitespace on either side. */
  lemma TrimStartSplits(s: string) returns (u: string)
    ensures s == u + TrimStart(s) && AllSpace(u)
  {
    var t := TrimStart(s);
    var n := |s| - |t|;
    assert 0 <= n <= |s|;
    u := s[..n];
    assert t == s[n..];
    assert s == s[..n] + s[n..];
  }

  lemma TrimEndSplits(s: string) returns (u: string)
    ensures s == TrimEnd(s) + u && AllSpace(u)
  {
    var t := TrimEnd(s);
    var n := |t|;
    assert 0 <= n <= |s|;
    u := s[n..];
    assert t == s[..n];
    assert s == s[..n] + s[n..];
  }

  lemma StripSplits(s: string) returns (u1: string, u2: string)
    ensures s == u1 + Strip(s) + u2 && AllSpace(u1) && AllSpace(u2)
  {
    var t := TrimStart(s);
    u1 := TrimStartSplits(s);
    u2 := TrimEndSplits(t);
    AppendAssoc(u1, TrimEnd(t), u2);
  }

  /** Whitespace added around the input never changes what stripping yields. */
  lemma StripIgnoresPadding(w1: string, s: string, w2: string)
    requires AllSpace(w1) && AllSpace(w2)
    ensures Strip(w1 + s + w2) == Strip(s)
  {
    var u1, u2 := StripSplits(s);
    var x := Strip(s);
    AppendAssoc(w1, u1 + x, u2);
    AppendAssoc(w1 + (u1 + x), u2, w2);
    AppendAssoc(w1, u1, x);
    AppendAssoc(w1 + u1 + x, u2, w2);
    AllSpaceAppend(w1, u1);
    AllSpaceAppend(u2, w2);
    StripPadded(w1 + u1, x, u2 + w2);
  }

  // ---------------------------------------------------------------------------
  // str.find, str.startswith, str.endswith

  /** str.find for a single character: the first index of c in s, or -1. */
  function Find(s: string, c: char): (r: int)
    ensures -1 <= r < |s|
    ensures r == -1 <==> c !in s
    ensures r >= 0 ==> s[r] == c && c !in s[..r]
  {
    if s == [] then -1
    else if s[0] == c then 0
    else
      var k := Find(s[1..], c);
      if k == -1 then -1 else k + 1
  }

  lemma {:induction false} FindIsFirst(s: string, c: char, m: nat)
    requires m < |s| && s[m] == c && c !in s[..m]
    ensures Find(s, c) == m
  {
    if m > 0 {
      assert s[0] == s[..m][0];
      assert s[1..][..m - 1] == s[..m][1..];
      FindIsFirst(s[1..], c, m - 1);
    }
  }

  /** str.startswith("```"). */
  function StartsWithFence(s: string): (b: bool)
    ensures b <==> |s| >= 3 && s[0] == '`' && s[1] == '`' && s[2] == '`'
  {
    |s| >= 3 && s[..3] == Fence
  }

  /** str.endswith("```"). */
  function EndsWithFence(s: string): (b: bool)
    ensures b <==> |s| >= 3 && s[|s| - 3] == '`' && s[|s| - 2] == '`' && s[|s| - 1] == '`'
  {
    |s| >= 3 && s[|s| - 3..] == Fence
  }

  // ---------------------------------------------------------------------------
  // Code-fence removal

  /** The text after the first newline, or all of it when it has none. */
  function AfterFirstLine(s: string): (r: string)
    ensures |r| <= |s| && r == s[|s| - |r|..]
    ensures '\n' in s ==> |r| < |s| && s[|s| - |r| - 1] == '\n' && '\n' !in s[..|s| - |r| - 1]
    ensures '\n' !in s ==> r == s
  {
    var nl := Find(s, '\n');
    if nl != -1 then s[nl + 1..] else s
  }

  /** The fence step on an already stripped text: when it starts with three
      backticks, drop the first line if there is a newline, then drop a closing
      fence and the whitespace before it. */
  function StripFence(s: string): (r: string)
    ensures |r| <= |s|
    ensures !StartsWithFence(s) ==> r == s
    ensures StartsWithFence(s) ==> r <= AfterFirstLine(s)
    ensures StartsWithFence(s) && !EndsWithFence(AfterFirstLine(s)) ==> r == AfterFirstLine(s)
    // a closing fence goes, and so does the whitespace before it
    ensures StartsWithFence(s) && EndsWithFence(AfterFirstLine(s)) ==>
              var b := AfterFirstLine(s);
              && |r| <= |b| - 3
              && AllSpace(b[|r|..|b| - 3])
              && (r == [] || !IsSpace(r[|r| - 1]))
    // without a newline the opening marker stays, unless it is also the closing one
    ensures StartsWithFence(s) && '\n' !in s && |s| >= 6 ==> |r| >= 3 && r[..3] == Fence
  {
    if !StartsWithFence(s) then s
    else
      var body := AfterFirstLine(s);
      var r := Unclose(body);
      assert '\n' !in s && |s| >= 6 ==> |r| >= 3 && r[..3] == Fence by {
        if '\n' !in s && |s| >= 6 {
          UncloseKeepsOpening(s);
        }
      }
      r
  }

  /** The closing half of the fence step: DropClosingFence when the text ends
      with a fence, the text itself otherwise. */
  function Unclose(b: string): (r: string)
    ensures r <= b
    ensures !EndsWithFence(b) ==> r == b
    ensures EndsWithFence(b) ==>
              && |r| <= |b| - 3
              && AllSpace(b[|r|..|b| - 3])
              && (r == [] || !IsSpace(r[|r| - 1]))
  {
    if EndsWithFence(b) then DropClosingFence(b) else b
  }

  /** A single line of at least six characters that opens with a fence keeps
      that fence: the closing half only removes what follows it. */
  lemma UncloseKeepsOpening(s: string)
    requires StartsWithFence(s) && |s| >= 6
    ensures |Unclose(s)| >= 3 && Unclose(s)[..3] == Fence
  {
    var r := Unclose(s);
    assert s[2] == s[..3][2] == '`';
    if EndsWithFence(s) {
      assert !IsSpace(s[2]);
    }
    assert r[..3] == s[..3];
  }

  /** A text that ends with a closing fence, less those three characters and
      then rstripped: the fence goes, then the whitespace before it, and nothing
      else. */
  function DropClosingFence(b: string): (r: string)
    requires EndsWithFence(b)
    ensures |r| <= |b| - 3 && r == b[..|r|]
    ensures AllSpace(b[|r|..|b| - 3])
    ensures r == [] || !IsSpace(r[|r| - 1])
  {
    var x := b[..|b| - 3];
    var r := TrimEnd(x);
    assert x[..|r|] == b[..|r|];
    assert b[|r|..|b| - 3] == x[|r|..];
    r
  }

  // ---------------------------------------------------------------------------
  // Trailing-comma removal: re.sub(r',\s*}', '}', s) and re.sub(r',\s*]', ']', s)

  /** The length of the whitespace run at the start of s. */
  function SpaceRun(s: string): (k: nat)
    ensures k <= |s| && AllSpace(s[..k])
    ensures k == |s| || !IsSpace(s[k])
  {
    if s != [] && IsSpace(s[0]) then
      var k := SpaceRun(s[1..]);
      assert s[..k + 1] == [s[0]] + s[1..][..k];
      k + 1
    else 0
  }

  lemma {:induction false} SpaceRunUpTo(t: string, m: nat)
    requires m < |t| && AllSpace(t[..m]) && !IsSpace(t[m])
    ensures SpaceRun(t) == m
  {
    if m > 0 {
      assert IsSpace(t[..m][0]);
      assert t[1..][..m - 1] == t[..m][1..];
      SpaceRunUpTo(t[1..], m - 1);
    }
  }

  lemma {:induction false} SpaceRunAppend(u: string, t: string)
    requires t != [] && !IsSpace(t[0])
    ensures SpaceRun(u + t) == SpaceRun(u)
  {
    if u != [] && IsSpace(u[0]) {
      assert (u + t)[1..] == u[1..] + t;
      SpaceRunAppend(u[1..], t);
    }
  }

  /** A match of the pattern `,\s*close` spanning s[i..j+1]. */
  predicate DanglingCommaAt(s: string, i: int, j: int, close: char) {
    0 <= i < j < |s| && s[i] == ',' && s[j] == close && AllSpace(s[i + 1..j])
  }

  predicate HasDanglingComma(s: string, close: char) {
    exists i, j | 0 <= i < j < |s| :: DanglingCommaAt(s, i, j, close)
  }

  /** One left-to-right pass of the regular-expression substitution: each
      non-overlapping match of a comma, whitespace and `close` becomes `close`;
      scanning resumes after the replaced text. */
  function RemoveCommaBefore(s: string, close: char): (r: string)
    ensures |r| <= |s|
    decreases |s|
  {
    if s == [] then []
    else if s[0] == ',' then
      var k := SpaceRun(s[1..]);
      if 1 + k < |s| && s[1 + k] == close then [close] + RemoveCommaBefore(s[2 + k..], close)
      else [','] + RemoveCommaBefore(s[1..], close)
    else [s[0]] + RemoveCommaBefore(s[1..], close)
  }

  lemma DanglingAtHead(s: string, close: char)
    requires s != [] && s[0] == ','
    ensures var k := SpaceRun(s[1..]);
            1 + k < |s| && s[1 + k] == close ==> DanglingCommaAt(s, 0, 1 + k, close)
  {
    var k := SpaceRun(s[1..]);
    assert s[1..][..k] == s[1..1 + k];
  }

  lemma DanglingInTail(s: string, close: char)
    requires s != []
    ensures HasDanglingComma(s[1..], close) ==> HasDanglingComma(s, close)
  {
    if HasDanglingComma(s[1..], close) {
      var i, j :| DanglingCommaAt(s[1..], i, j, close);
      assert DanglingCommaAt(s[1..], i, j, close);
      assert s[1..][i + 1..j] == s[i + 2..j + 1];
      assert DanglingCommaAt(s, i + 1, j + 1, close);
    }
  }

  lemma {:induction false} UnchangedWithoutDanglingComma(s: string, close: char)
    requires !HasDanglingComma(s, close)
    ensures RemoveCommaBefore(s, close) == s
  {
    if s != [] {
      DanglingInTail(s, close);
      UnchangedWithoutDanglingComma(s[1..], close);
      if s[0] == ',' {
        DanglingAtHead(s, close);
      }
    }
  }

  lemma {:induction false} ShorterWithDanglingComma(s: string, close: char)
    requires IsCloser(close) && HasDanglingComma(s, close)
    ensures |RemoveCommaBefore(s, close)| < |s|
  {
    var i, j :| DanglingCommaAt(s, i, j, close);
    assert DanglingCommaAt(s, i, j, close);
    if i == 0 {
      assert s[1..][..j - 1] == s[i + 1..j];
      SpaceRunUpTo(s[1..], j - 1);
    } else {
      assert s[1..][i..j - 1] == s[i + 1..j];
      assert DanglingCommaAt(s[1..], i - 1, j - 1, close);
      ShorterWithDanglingComma(s[1..], close);
    }
  }

  /** The substitution changes the text exactly when the pattern occurs in it. */
  lemma RemoveCommaBeforeUnchangedIff(s: string, close: char)
    requires IsCloser(close)
    ensures RemoveCommaBefore(s, close) == s <==> !HasDanglingComma(s, close)
  {
    if HasDanglingComma(s, close) {
      ShorterWithDanglingComma(s, close);
    } else {
      UnchangedWithoutDanglingComma(s, close);
    }
  }

  /** Text with no comma at all passes the substitution unchanged. */
  lemma RemoveCommaBeforeWithoutComma(s: string, close: char)
    requires ',' !in s
    ensures RemoveCommaBefore(s, close) == s
  {
    UnchangedWithoutDanglingComma(s, close);
  }

  /** The substitution is one pass, not a fixpoint: ",,}" becomes ",}", which
      still holds a match. */
  lemma RemoveCommaBeforeSinglePass()
    ensures RemoveCommaBefore(",,}", '}') == ",}"
    ensures HasDanglingComma(",}", '}')
  {
    assert DanglingCommaAt(",}", 0, 1, '}');
  }

  /** Where the comma's whitespace run ends inside a, the scan over a + t sees the same run. */
  lemma CommaRunBeforeTail(a: string, t: string, close: char) returns (k: nat)
    requires t != [] && t[0] != close && !IsSpace(t[0])
    requires a != [] && a[0] == ','
    ensures k == SpaceRun(a[1..]) && k == SpaceRun((a + t)[1..]) && (a + t)[0] == ','
    ensures (1 + k < |a + t| && (a + t)[1 + k] == close) == (1 + k < |a| && a[1 + k] == close)
  {
    var s := a + t;
    assert s[1..] == a[1..] + t;
    SpaceRunAppend(a[1..], t);
    k := SpaceRun(a[1..]);
    if 1 + k < |a| {
      assert s[1 + k] == a[1 + k];
    } else if 1 + k < |s| {
      assert s[1 + k] == t[0];
    }
  }

  /** One step of the scan over a + t at a comma of a, stated on the parts. */
  lemma ScanCommaBeforeTail(a: string, t: string, close: char)
    requires t != [] && t[0] != close && !IsSpace(t[0])
    requires a != [] && a[0] == ','
    ensures var k := SpaceRun(a[1..]);
            RemoveCommaBefore(a + t, close) ==
              if 1 + k < |a| && a[1 + k] == close then [close] + RemoveCommaBefore(a[2 + k..] + t, close)
              else [','] + RemoveCommaBefore(a[1..] + t, close)
  {
    var k := CommaRunBeforeTail(a, t, close);
    if 1 + k < |a| && a[1 + k] == close {
      ScanCommaHit(a, t, close, k);
    } else {
      ScanCommaMiss(a, t, close, k);
    }
  }

  lemma ScanCommaHit(a: string, t: string, close: char, k: nat)
    requires 1 + k < |a| && a[0] == ',' && a[1 + k] == close
    requires k == SpaceRun((a + t)[1..])
    ensures RemoveCommaBefore(a + t, close) == [close] + RemoveCommaBefore(a[2 + k..] + t, close)
  {
    var s := a + t;
    assert s[0] == ',' && s[1 + k] == close;
    assert s[2 + k..] == a[2 + k..] + t;
  }

  lemma ScanCommaMiss(a: string, t: string, close: char, k: nat)
    requires a != [] && a[0] == ','
    requires k == SpaceRun((a + t)[1..])
    requires !(1 + k < |a + t| && (a + t)[1 + k] == close)
    ensures RemoveCommaBefore(a + t, close) == [','] + RemoveCommaBefore(a[1..] + t, close)
  {
    var s := a + t;
    assert s[0] == ',';
    assert s[1..] == a[1..] + t;
  }

  lemma ScanPlainBeforeTail(a: string, t: string, close: char)
    requires a != [] && a[0] != ','
    ensures RemoveCommaBefore(a + t, close) == [a[0]] + RemoveCommaBefore(a[1..] + t, close)
  {
    assert (a + t)[1..] == a[1..] + t;
  }

  /** The first step of the scan, taken on a + t and on a alone, emits the same
      text and leaves the same remainder of a. */
  lemma ScanStepBeforeTail(a: string, t: string, close: char) returns (head: string, rest: string)
    requires a != [] && t != [] && t[0] != close && !IsSpace(t[0])
    ensures |rest| < |a|
    ensures RemoveCommaBefore(a + t, close) == head + RemoveCommaBefore(rest + t, close)
    ensures RemoveCommaBefore(a, close) == head + RemoveCommaBefore(rest, close)
  {
    if a[0] != ',' {
      rest, head := a[1..], [a[0]];
      ScanPlainBeforeTail(a, t, close);
    } else {
      ScanCommaBeforeTail(a, t, close);
      var k := SpaceRun(a[1..]);
      if 1 + k < |a| && a[1 + k] == close {
        rest, head := a[2 + k..], [close];
      } else {
        rest, head := a[1..], [','];
      }
    }
  }

  /** A tail that starts with a character other than whitespace or `close` and
      holds no comma cannot take part in a match, so it passes through. */
  lemma {:induction false} RemoveCommaBeforeAppend(a: string, t: string, close: char)
    requires IsCloser(close) && ',' !in t && t != [] && t[0] != close && !IsSpace(t[0])
    ensures RemoveCommaBefore(a + t, close) == RemoveCommaBefore(a, close) + t
    decreases |a|
  {
    if a == [] {
      assert a + t == t;
      RemoveCommaBeforeWithoutComma(t, close);
    } else {
      var head, rest := ScanStepBeforeTail(a, t, close);
      RemoveCommaBeforeAppend(rest, t, close);
      assert head + (RemoveCommaBefore(rest, close) + t) == (head + RemoveCommaBefore(rest, close)) + t;
    }
  }

  // ---------------------------------------------------------------------------
  // Exactly what is deleted: the comma and whitespace of every match

  /** Position p lies inside a match, before its closing character. */
  predicate Covered(s: string, close: char, p: int) {
    exists i, j | 0 <= i <= p < j < |s| :: DanglingCommaAt(s, i, j, close)
  }

  /** The characters of s from position p on that no match covers, in order:
      an account of the substitution made without the scan. */
  function KeepFrom(s: string, close: char, p: nat): (r: string)
    ensures |r| <= |s| - p || (p >= |s| && r == [])
    decreases |s| - p
  {
    if p >= |s| then []
    else (if Covered(s, close, p) then [] else [s[p]]) + KeepFrom(s, close, p + 1)
  }

  /** No match starts before m and ends at or after it. */
  predicate NoMatchAcross(s: string, close: char, m: int) {
    forall i, j | 0 <= i < j < |s| && DanglingCommaAt(s, i, j, close) :: i < m ==> j < m
  }

  /** The match a comma at the head of s starts, if any, ends where its
      whitespace run ends. */
  lemma MatchAtHeadEnd(s: string, close: char, j: int)
    requires IsCloser(close) && DanglingCommaAt(s, 0, j, close)
    ensures j == 1 + SpaceRun(s[1..])
  {
    assert s[1..][..j - 1] == s[1..j];
    SpaceRunUpTo(s[1..], j - 1);
  }

  /** Where no match reaches across m, the positions from m on are covered in s
      exactly when they are covered in s[m..]. */
  lemma CoveredShift(s: string, close: char, m: nat, p: nat)
    requires m <= p < |s| && NoMatchAcross(s, close, m)
    ensures Covered(s, close, p) <==> Covered(s[m..], close, p - m)
  {
    if Covered(s, close, p) {
      var i, j :| 0 <= i <= p < j < |s| && DanglingCommaAt(s, i, j, close);
      assert DanglingCommaAt(s, i, j, close);
      assert s[m..][i - m + 1..j - m] == s[i + 1..j];
      assert DanglingCommaAt(s[m..], i - m, j - m, close);
    }
    if Covered(s[m..], close, p - m) {
      var i, j :| 0 <= i <= p - m < j < |s| - m && DanglingCommaAt(s[m..], i, j, close);
      assert DanglingCommaAt(s[m..], i, j, close);
      assert s[m..][i + 1..j] == s[m + i + 1..m + j];
      assert DanglingCommaAt(s, m + i, m + j, close);
    }
  }

  lemma {:induction false} KeepFromShift(s: string, close: char, m: nat, p: nat)
    requires m <= p <= |s| && NoMatchAcross(s, close, m)
    ensures KeepFrom(s, close, p) == KeepFrom(s[m..], close, p - m)
    decreases |s| - p
  {
    if p < |s| {
      CoveredShift(s, close, m, p);
      KeepFromShift(s, close, m, p + 1);
      assert s[m..][p - m] == s[p];
    }
  }

  /** Positions p up to e, all covered, contribute nothing. */
  lemma {:induction false} KeepFromSkip(s: string, close: char, p: nat, e: nat)
    requires p <= e <= |s| && forall q | p <= q < e :: Covered(s, close, q)
    ensures KeepFrom(s, close, p) == KeepFrom(s, close, e)
    decreases e - p
  {
    if p < e {
      KeepFromSkip(s, close, p + 1, e);
    }
  }

  /** When the head is not a comma that starts a match, no match covers it or
      reaches past it. */
  lemma NoMatchFromHead(s: string, close: char)
    requires IsCloser(close) && s != []
    requires s[0] == ',' ==> !(1 + SpaceRun(s[1..]) < |s| && s[1 + SpaceRun(s[1..])] == close)
    ensures !Covered(s, close, 0) && NoMatchAcross(s, close, 1)
  {
    forall j | 0 < j < |s| && DanglingCommaAt(s, 0, j, close)
      ensures false
    {
      MatchAtHeadEnd(s, close, j);
    }
  }

  /** A match at the head covers its comma and whitespace; its closer and
      everything after it lie outside it. */
  lemma MatchAtHead(s: string, close: char, e: nat)
    requires IsCloser(close) && s != [] && s[0] == ','
    requires e == 1 + SpaceRun(s[1..]) && e < |s| && s[e] == close
    ensures forall q | 0 <= q < e :: Covered(s, close, q)
    ensures !Covered(s, close, e) && NoMatchAcross(s, close, e + 1)
  {
    assert s[1..][..e - 1] == s[1..e];
    assert DanglingCommaAt(s, 0, e, close);
    forall i, j | 0 <= i < j < |s| && DanglingCommaAt(s, i, j, close) && i <= e
      ensures i == 0 && j == e
    {
      MatchAtHeadEnd(s, close, j);
    }
  }

  /** Read from a match at the head: the closer, then what follows the match. */
  lemma KeepFromAtMatch(s: string, close: char, e: nat)
    requires IsCloser(close) && s != [] && s[0] == ','
    requires e == 1 + SpaceRun(s[1..]) && e < |s| && s[e] == close
    ensures KeepFrom(s, close, 0) == [close] + KeepFrom(s[e + 1..], close, 0)
  {
    MatchAtHead(s, close, e);
    KeepFromSkip(s, close, 0, e);
    KeepFromShift(s, close, e + 1, e + 1);
    assert KeepFrom(s, close, e) == [s[e]] + KeepFrom(s, close, e + 1);
  }

  /** Read from a head that starts no match: the head, then the rest. */
  lemma KeepFromAtHead(s: string, close: char)
    requires s != [] && !Covered(s, close, 0) && NoMatchAcross(s, close, 1)
    ensures KeepFrom(s, close, 0) == [s[0]] + KeepFrom(s[1..], close, 0)
  {
    assert KeepFrom(s, close, 0) == [s[0]] + KeepFrom(s, close, 1);
    KeepFromShift(s, close, 1, 1);
  }

  /** The substitution deletes exactly the comma and whitespace of every match
      of `,\s*close` and keeps every other character, commas and whitespace
      outside the matches included, in order. */
  lemma {:induction false} DeletesExactlyMatches(s: string, close: char)
    requires IsCloser(close)
    ensures RemoveCommaBefore(s, close) == KeepFrom(s, close, 0)
    decreases |s|
  {
    if s != [] {
      var e := 1 + SpaceRun(s[1..]);
      if s[0] == ',' && e < |s| && s[e] == close {
        KeepFromAtMatch(s, close, e);
        DeletesExactlyMatches(s[e + 1..], close);
      } else {
        NoMatchFromHead(s, close);
        KeepFromAtHead(s, close);
        DeletesExactlyMatches(s[1..], close);
      }
    }
  }

  // ---------------------------------------------------------------------------
  // What is removed: every dangling comma, unless commas are chained

  /** No comma is followed, after whitespace only, by another comma. */
  predicate NoCommaChain(s: string) {
    forall i, j | 0 <= i < j < |s| :: !(s[i] == ',' && s[j] == ',' && AllSpace(s[i + 1..j]))
  }

  lemma NoCommaChainSuffix(s: string, m: nat)
    requires NoCommaChain(s) && m <= |s|
    ensures NoCommaChain(s[m..])
  {
    forall i, j | 0 <= i < j < |s| - m
      ensures !(s[m..][i] == ',' && s[m..][j] == ',' && AllSpace(s[m..][i + 1..j]))
    {
      assert s[m..][i + 1..j] == s[m + i + 1..m + j];
    }
  }

  /** A match that does not start at the first character is a match in the rest. */
  lemma DanglingShift(c: char, t: string, close: char, i: int, j: int)
    requires DanglingCommaAt([c] + t, i, j, close) && i > 0
    ensures DanglingCommaAt(t, i - 1, j - 1, close)
  {
    assert ([c] + t)[i + 1..j] == t[i..j - 1];
  }

  /** A comma-free prefix passes through the scan unchanged. */
  lemma {:induction false} PassCommaFree(w: string, t: string, close: char)
    requires ',' !in w
    ensures RemoveCommaBefore(w + t, close) == w + RemoveCommaBefore(t, close)
    decreases |w|
  {
    if w == [] {
      assert w + t == t;
    } else {
      assert (w + t)[0] == w[0] && (w + t)[1..] == w[1..] + t;
      assert w[0] != ',';
      PassCommaFree(w[1..], t, close);
      assert w == [w[0]] + w[1..];
    }
  }

  /** A comma whose whitespace run does not end at `close` is kept, and so is
      the run. */
  lemma MissKeepsRun(s: string, close: char) returns (k: nat)
    requires s != [] && s[0] == ','
    requires !(1 + SpaceRun(s[1..]) < |s| && s[1 + SpaceRun(s[1..])] == close)
    ensures k == SpaceRun(s[1..]) && 1 + k <= |s| && AllSpace(s[1..1 + k])
    ensures 1 + k < |s| ==> s[1 + k] != close && !IsSpace(s[1 + k])
    ensures RemoveCommaBefore(s, close) == [','] + s[1..1 + k] + RemoveCommaBefore(s[1 + k..], close)
  {
    k := SpaceRun(s[1..]);
    var w := s[1..1 + k];
    assert s[1..][..k] == w;
    assert s[1..] == w + s[1 + k..];
    assert ',' !in w by {
      assert forall m | 0 <= m < |w| :: IsSpace(w[m]);
    }
    PassCommaFree(w, s[1 + k..], close);
    KeptComma(s, close);
    AppendAssoc([','], w, RemoveCommaBefore(s[1 + k..], close));
    if 1 + k < |s| {
      assert s[1..][k] == s[1 + k];
    }
  }

  lemma KeptComma(s: string, close: char)
    requires s != [] && s[0] == ','
    requires !(1 + SpaceRun(s[1..]) < |s| && s[1 + SpaceRun(s[1..])] == close)
    ensures RemoveCommaBefore(s, close) == [','] + RemoveCommaBefore(s[1..], close)
  {
  }

  /** Right after a comma, whitespace and then a character other than `close`
      or whitespace: no match starts at the comma. */
  lemma NoMatchAtHead(w: string, u: string, close: char, j: int)
    requires IsCloser(close) && AllSpace(w)
    requires u == [] || (u[0] != close && !IsSpace(u[0]))
    ensures !DanglingCommaAt([','] + w + u, 0, j, close)
  {
    var x := [','] + w + u;
    assert forall m | 1 <= m <= |w| :: x[m] == w[m - 1];
    if u != [] {
      assert x[|w| + 1] == u[0];
    }
  }

  /** The pass leaves no comma dangling before `close`, as long as the text
      never chains commas through whitespace (",,}" shows why that is needed). */
  lemma {:induction false} RemoveCommaBeforeClears(s: string, close: char)
    requires IsCloser(close) && NoCommaChain(s)
    ensures !HasDanglingComma(RemoveCommaBefore(s, close), close)
    decreases |s|
  {
    if s != [] {
      var head, t := ScanHead(s, close);
      NoCommaChainSuffix(s, |s| - |t|);
      RemoveCommaBeforeClears(t, close);
      var r := RemoveCommaBefore(s, close);
      if HasDanglingComma(r, close) {
        var i, j :| DanglingCommaAt(r, i, j, close);
        assert DanglingCommaAt(r, i, j, close);
        if i == 0 {
          NoMatchAfterKeptComma(s, close, j);
        } else {
          DanglingShift(head, RemoveCommaBefore(t, close), close, i, j);
        }
      }
    }
  }

  /** The scan's first step: one character out, and a shorter suffix to go.
      A comma comes out only when its run does not end at `close`. */
  lemma ScanHead(s: string, close: char) returns (head: char, t: string)
    requires s != [] && IsCloser(close)
    ensures |t| < |s| && t == s[|s| - |t|..]
    ensures RemoveCommaBefore(s, close) == [head] + RemoveCommaBefore(t, close)
    ensures head == ',' ==> s[0] == ',' && !(1 + SpaceRun(s[1..]) < |s| && s[1 + SpaceRun(s[1..])] == close)
  {
    var k := SpaceRun(s[1..]);
    if s[0] == ',' && 1 + k < |s| && s[1 + k] == close {
      head, t := close, s[2 + k..];
    } else {
      head, t := s[0], s[1..];
    }
  }

  /** A comma the scan keeps does not start a match in the output. */
  lemma NoMatchAfterKeptComma(s: string, close: char, j: int)
    requires IsCloser(close) && NoCommaChain(s) && s != [] && s[0] == ','
    requires !(1 + SpaceRun(s[1..]) < |s| && s[1 + SpaceRun(s[1..])] == close)
    ensures !DanglingCommaAt(RemoveCommaBefore(s, close), 0, j, close)
  {
    var k := MissKeepsRun(s, close);
    if 1 + k < |s| {
      assert AllSpace(s[0 + 1..1 + k]) && s[1 + k] != ',';
      assert RemoveCommaBefore(s[1 + k..], close)[0] == s[1 + k];
    }
    NoMatchAtHead(s[1..1 + k], RemoveCommaBefore(s[1 + k..], close), close, j);
  }

  // ---------------------------------------------------------------------------
  // What is kept: everything except commas and whitespace

  /** The text with every comma and every whitespace character removed. */
  function Skeleton(s: string): (r: string)
    ensures |r| <= |s|
  {
    if s == [] then []
    else (if s[0] == ',' || IsSpace(s[0]) then [] else [s[0]]) + Skeleton(s[1..])
  }

  lemma {:induction false} SkeletonAppend(a: string, b: string)
    ensures Skeleton(a + b) == Skeleton(a) + Skeleton(b)
  {
    if a == [] {
      assert a + b == b;
    } else {
      assert (a + b)[1..] == a[1..] + b;
      SkeletonAppend(a[1..], b);
    }
  }

  lemma {:induction false} SkeletonSkipsSpaces(t: string, k: nat)
    requires k <= |t| && AllSpace(t[..k])
    ensures Skeleton(t) == Skeleton(t[k..])
  {
    if k > 0 {
      assert IsSpace(t[..k][0]);
      assert t[1..][..k - 1] == t[..k][1..];
      SkeletonSkipsSpaces(t[1..], k - 1);
      assert t[1..][k - 1..] == t[k..];
    }
  }

  /** Proof helper: a character Skeleton keeps heads its result. */
  lemma SkeletonOfSingle(c: char, x: string)
    requires c != ',' && !IsSpace(c)
    ensures Skeleton([c] + x) == [c] + Skeleton(x)
  {
    assert ([c] + x)[1..] == x;
  }

  /** The substitution deletes only commas and whitespace: all other characters
      survive, in their order. */
  lemma {:induction false} RemoveCommaBeforeKeepsSkeleton(s: string, close: char)
    requires IsCloser(close)
    ensures Skeleton(RemoveCommaBefore(s, close)) == Skeleton(s)
  {
    if s == [] {
    } else if s[0] == ',' {
      var k := SpaceRun(s[1..]);
      if 1 + k < |s| && s[1 + k] == close {
        var rest := s[2 + k..];
        RemoveCommaBeforeKeepsSkeleton(rest, close);
        SkeletonOfSingle(close, RemoveCommaBefore(rest, close));
        SkeletonSkipsSpaces(s[1..], k);
        assert s[1..][k..] == [close] + rest;
        SkeletonOfSingle(close, rest);
      } else {
        RemoveCommaBeforeKeepsSkeleton(s[1..], close);
        assert ([','] + RemoveCommaBefore(s[1..], close))[1..] == RemoveCommaBefore(s[1..], close);
      }
    } else {
      RemoveCommaBeforeKeepsSkeleton(s[1..], close);
      assert ([s[0]] + RemoveCommaBefore(s[1..], close))[1..] == RemoveCommaBefore(s[1..], close);
    }
  }

  lemma StripKeepsSkeleton(s: string)
    ensures Skeleton(Strip(s)) == Skeleton(s)
  {
    var u1, u2 := StripSplits(s);
    var x := Strip(s);
    SkeletonAppend(u1 + x, u2);
    SkeletonAppend(u1, x);
    SkeletonSkipsSpaces(u1, |u1|);
    SkeletonSkipsSpaces(u2, |u2|);
    assert u1[|u1|..] == [] && u2[|u2|..] == [];
  }

  // ---------------------------------------------------------------------------
  // clean_json_response

  function CleanJsonResponse(text: string): (r: string)
    ensures |r| <= |text|
  {
    var unfenced := StripFence(Strip(text));
    RemoveCommaBefore(RemoveCommaBefore(unfenced, '}'), ']')
  }

  /** Whitespace around the reply makes no difference: it is stripped first. */
  lemma CleanIgnoresPadding(w1: string, text: string, w2: string)
    requires AllSpace(w1) && AllSpace(w2)
    ensures CleanJsonResponse(w1 + text + w2) == CleanJsonResponse(text)
  {
    StripIgnoresPadding(w1, text, w2);
  }

  /** A reply that does not open with a fence loses only commas and whitespace. */
  lemma CleanUnfencedKeepsSkeleton(text: string)
    requires !StartsWithFence(Strip(text))
    ensures Skeleton(CleanJsonResponse(text)) == Skeleton(text)
  {
    var s := Strip(text);
    StripKeepsSkeleton(text);
    RemoveCommaBeforeKeepsSkeleton(s, '}');
    RemoveCommaBeforeKeepsSkeleton(RemoveCommaBefore(s, '}'), ']');
  }

  /** Without an opening fence a closing fence is left in place. */
  lemma CleanKeepsUnopenedClosingFence(text: string)
    requires !StartsWithFence(Strip(text)) && EndsWithFence(Strip(text))
    ensures EndsWithFence(CleanJsonResponse(text))
  {
    var s := Strip(text);
    var a := s[..|s| - 3];
    assert s == a + Fence;
    RemoveCommaBeforeAppend(a, Fence, '}');
    var b := RemoveCommaBefore(a, '}');
    RemoveCommaBeforeAppend(b, Fence, ']');
    var r := RemoveCommaBefore(b, ']') + Fence;
    assert r[|r| - 3..] == Fence;
  }

  /** A reply that is nothing but a fence cleans to the empty text. */
  lemma CleanBareFence(w1: string, w2: string)
    requires AllSpace(w1) && AllSpace(w2)
    ensures CleanJsonResponse(w1 + Fence + w2) == ""
  {
    StripPadded(w1, Fence, w2);
    assert Fence[..|Fence| - 3] == [];
  }

  /** The fence step on a fenced block gives back the block's body, less the
      whitespace that stood before the closing fence. */
  lemma StripFenceOfBlock(info: string, body: string)
    requires '\n' !in info
    ensures StripFence(Fence + info + "\n" + body + Fence) == TrimEnd(body)
  {
    var x := Fence + info + "\n" + body + Fence;
    assert x[..3] == Fence;
    var m := |Fence + info|;
    assert x[..m] == Fence + info;
    assert x[m] == '\n';
    FindIsFirst(x, '\n', m);
    assert x[m + 1..] == body + Fence;
    assert AfterFirstLine(x) == body + Fence;
    assert (body + Fence)[..|body + Fence| - 3] == body;
  }

  /** The purpose of the cleaner: a body wrapped in a fenced block (with any info
      string on the opening line, and whitespace around the block) comes out as
      the body without its trailing whitespace, provided that needs no comma
      removal. The closing fence may stand on a line of its own. */
  lemma CleanUnwrapsFencedBlock(w1: string, info: string, body: string, w2: string)
    requires AllSpace(w1) && AllSpace(w2) && '\n' !in info
    requires !HasDanglingComma(TrimEnd(body), '}') && !HasDanglingComma(TrimEnd(body), ']')
    ensures CleanJsonResponse(w1 + Fence + info + "\n" + body + Fence + w2) == TrimEnd(body)
  {
    var text := w1 + Fence + info + "\n" + body + Fence + w2;
    PaddedBlockUnfenced(w1, info, body, w2);
    var t := TrimEnd(body);
    UnchangedWithoutDanglingComma(t, '}');
    UnchangedWithoutDanglingComma(t, ']');
  }

  /** The first two steps of the cleaner on a padded fenced block. */
  lemma PaddedBlockUnfenced(w1: string, info: string, body: string, w2: string)
    requires AllSpace(w1) && AllSpace(w2) && '\n' !in info
    ensures StripFence(Strip(w1 + Fence + info + "\n" + body + Fence + w2)) == TrimEnd(body)
  {
    var x := Fence + info + "\n" + body + Fence;
    assert w1 + Fence + info + "\n" + body + Fence + w2 == w1 + x + w2;
    assert x[0] == '`' && x[|x| - 1] == '`';
    StripPadded(w1, x, w2);
    StripFenceOfBlock(info, body);
  }

  /** The usual layout of a model's reply: the JSON on the lines between an
      opening line and a closing fence on a line of its own. */
  lemma CleanUnwrapsJsonBlock()
    ensures CleanJsonResponse("```json\n{\"a\": 1}\n```\n") == "{\"a\": 1}"
  {
    var json := "{\"a\": 1}";
    var body := json + "\n";
    TrimEndPadded(json, "\n");
    assert ',' !in json;
    assert "```json\n{\"a\": 1}\n```\n" == "" + Fence + "json" + "\n" + body + Fence + "\n";
    CleanUnwrapsFencedBlock("", "json", body, "\n");
  }

  /** A comma right before the closer at the end of a comma-free reply that
      does not open with a fence or whitespace is removed, and nothing else
      changes. */
  lemma CleanDropsFinalComma(a: string, close: char)
    requires IsCloser(close) && ',' !in a && a != [] && a[0] != '`' && !IsSpace(a[0])
    ensures CleanJsonResponse(a + [',', close]) == a + [close]
  {
    var x := a + [',', close];
    assert x[0] == a[0] && x[|x| - 1] == close;
    CleanOfPlain(x);
    PassesDropFinalComma(a, close);
  }

  /** A reply with no whitespace at either end that does not open with a fence
      goes straight to the two comma passes. */
  lemma CleanOfPlain(x: string)
    requires x != [] && x[0] != '`' && !IsSpace(x[0]) && !IsSpace(x[|x| - 1])
    ensures CleanJsonResponse(x) == RemoveCommaBefore(RemoveCommaBefore(x, '}'), ']')
  {
    assert TrimStart(x) == x && TrimEnd(x) == x;
    assert !StartsWithFence(x);
  }

  /** Text without `close` passes its substitution unchanged. */
  lemma RemoveCommaBeforeWithoutCloser(s: string, close: char)
    requires close !in s
    ensures RemoveCommaBefore(s, close) == s
  {
    assert !HasDanglingComma(s, close) by {
      forall i, j | 0 <= i < j < |s| ensures !DanglingCommaAt(s, i, j, close) {
        assert s[j] in s;
      }
    }
    UnchangedWithoutDanglingComma(s, close);
  }

  lemma PassesDropFinalComma(a: string, close: char)
    requires IsCloser(close) && ',' !in a
    ensures RemoveCommaBefore(RemoveCommaBefore(a + [',', close], '}'), ']') == a + [close]
  {
    PassCommaFree(a, [',', close], '}');
    assert ',' !in a + [close];
    if close == '}' {
      assert RemoveCommaBefore([',', close], '}') == [close];
      RemoveCommaBeforeWithoutComma(a + [close], ']');
    } else {
      assert RemoveCommaBefore([',', close], '}') == [',', close];
      PassCommaFree(a, [',', close], ']');
      assert RemoveCommaBefore([',', close], ']') == [close];
    }
  }

  /** The source's first example: a trailing comma in an object goes. */
  lemma CleanDropsTrailingComma()
    ensures CleanJsonResponse("{\"key\": " + "\"value\"" + ",}") == "{\"key\": " + "\"value\"" + "}"
  {
    var a := "{\"key\": " + "\"value\"";
    assert ',' !in "{\"key\": " && ',' !in "\"value\"";
    assert a + [',', '}'] == "{\"key\": " + "\"value\"" + ",}";
    assert a + ['}'] == "{\"key\": " + "\"value\"" + "}";
    CleanDropsFinalComma(a, '}');
  }

  /** A two-item array with a trailing comma: the comma after the last item
      goes, the one between the items stays. */
  lemma CleanKeepsSeparatingComma(a1: string, a2: string)
    requires ',' !in a1 && ',' !in a2 && '}' !in a1 && '}' !in a2
    requires a1 != [] && a1[0] != '`' && !IsSpace(a1[0])
    requires a2 != [] && a2[0] != ']' && !IsSpace(a2[0])
    ensures CleanJsonResponse(a1 + ", " + a2 + ",]") == a1 + ", " + a2 + "]"
  {
    var rest := ", " + a2 + ",]";
    var x := a1 + rest;
    AppendAssoc(a1, ", " + a2, ",]");
    AppendAssoc(a1, ", ", a2);
    assert x[0] == a1[0] && x[|x| - 1] == ']';
    CleanOfPlain(x);
    assert '}' !in rest;
    RemoveCommaBeforeWithoutCloser(x, '}');
    PassCommaFree(a1, rest, ']');
    ClosingPassOnTail(a2);
    AppendAssoc(a1, ", " + a2, "]");
  }

  lemma ClosingPassOnTail(a2: string)
    requires ',' !in a2 && a2 != [] && a2[0] != ']' && !IsSpace(a2[0])
    ensures RemoveCommaBefore(", " + a2 + ",]", ']') == ", " + a2 + "]"
  {
    AppendAssoc(", ", a2, ",]");
    KeptSeparator(a2 + ",]");
    PassCommaFree(a2, ",]", ']');
    assert RemoveCommaBefore(",]", ']') == "]";
    AppendAssoc(", ", a2, "]");
  }

  /** A comma and a space before an item that is not the closer stay. */
  lemma KeptSeparator(u: string)
    requires u != [] && u[0] != ']' && !IsSpace(u[0])
    ensures RemoveCommaBefore(", " + u, ']') == ", " + RemoveCommaBefore(u, ']')
  {
    var rest := ", " + u;
    assert rest[1..][..1] == " " && rest[1..][1] == u[0];
    SpaceRunUpTo(rest[1..], 1);
    var k := MissKeepsRun(rest, ']');
    assert [','] + rest[1..1 + k] == ", " && rest[1 + k..] == u;
  }

  /** The source's second example: the trailing comma of an array goes. */
  lemma CleanDropsTrailingCommaInArray()
    ensures CleanJsonResponse("[\"item1\"" + ", " + "\"item2\"" + ",]") == "[\"item1\"" + ", " + "\"item2\"" + "]"
  {
    var a1, a2 := "[\"item1\"", "\"item2\"";
    assert ',' !in a1 && ',' !in a2 && '}' !in a1 && '}' !in a2;
    CleanKeepsSeparatingComma(a1, a2);
  }
}
