/** The JavaScript string and number built-ins the toolchain relies on
    (`indexOf`, `split`, `trim`, `slice(-n)` zero padding, `toString(b)`,
    `parseInt`), written out as small functions on `seq<char>`. */
module Text {
  import opened Wrappers

  // ---------------------------------------------------------------------
  // Searching

  /** `sub` occurs in `s` starting at position `k`. */
  predicate OccursAt(s: string, sub: string, k: nat) {
    k + |sub| <= |s| && s[k..k + |sub|] == sub
  }

  /** `s.indexOf(sub, i)`: the first position at or after `i` where `sub`
      occurs, or -1, as `IndexFromFinds` states. */
  function IndexFrom(s: string, sub: string, i: nat): (r: int)
    ensures r == -1 || (i <= r && r + |sub| <= |s|)
    decreases |s| - i
  {
    if i + |sub| > |s| then -1
    else if OccursAt(s, sub, i) then i
    else IndexFrom(s, sub, i + 1)
  }

  /** `indexOf` finds the first occurrence at or after `i`, and -1 means
      there is none. */
  lemma {:induction false} IndexFromFinds(s: string, sub: string, i: nat)
    ensures var r := IndexFrom(s, sub, i);
      && (r == -1 || (i <= r && r + |sub| <= |s|))
      && (r >= 0 ==> OccursAt(s, sub, r) && forall k: nat :: i <= k < r ==> !OccursAt(s, sub, k))
      && (r == -1 ==> forall k: nat :: i <= k ==> !OccursAt(s, sub, k))
    decreases |s| - i
  {
    if i + |sub| <= |s| && !OccursAt(s, sub, i) {
      IndexFromFinds(s, sub, i + 1);
    }
  }

  /** `s.indexOf(sub)`. */
  function IndexOf(s: string, sub: string): (r: int)
    ensures r == -1 || (0 <= r && r + |sub| <= |s|)
  {
    IndexFrom(s, sub, 0)
  }

  /** `indexOf` finds the first occurrence, and -1 means there is none. */
  lemma IndexOfFinds(s: string, sub: string)
    ensures IndexOf(s, sub) >= 0 ==>
      OccursAt(s, sub, IndexOf(s, sub)) && forall k: nat :: k < IndexOf(s, sub) ==> !OccursAt(s, sub, k)
    ensures IndexOf(s, sub) == -1 ==> forall k: nat :: !OccursAt(s, sub, k)
  {
    IndexFromFinds(s, sub, 0);
  }

  /** A two-character pattern whose characters differ, absent from `p`,
      is first found where `q` starts with it. */
  lemma IndexOfAfter(p: string, sub: string, q: string)
    requires |sub| == 2 && sub[0] != sub[1]
    requires IndexOf(p, sub) == -1 && |sub| <= |q| && q[..2] == sub
    ensures IndexOf(p + q, sub) == |p|
  {
    var s := p + q;
    IndexOfFinds(p, sub);
    IndexOfFinds(s, sub);
    assert s[|p|..|p| + 2] == sub;
    assert OccursAt(s, sub, |p|);
    forall k: nat | k < |p|
      ensures !OccursAt(s, sub, k)
    {
      if k + 2 <= |p| {
        assert !OccursAt(p, sub, k);
        assert s[k..k + 2] == p[k..k + 2];
      } else {
        assert s[k + 1] == q[0] == sub[0];
        assert s[k..k + 2][1] == s[k + 1];
      }
    }
  }

  predicate Contains(s: string, sub: string) {
    IndexOf(s, sub) != -1
  }

  /** `s.startsWith(p)`, which is also `s.indexOf(p) === 0`. */
  predicate StartsWith(s: string, p: string) {
    |p| <= |s| && s[..|p|] == p
  }

  lemma StartsWithIsIndexZero(s: string, p: string)
    ensures StartsWith(s, p) <==> IndexOf(s, p) == 0
  {
    IndexOfFinds(s, p);
    assert StartsWith(s, p) <==> OccursAt(s, p, 0);
  }

  /** For a one-character needle, `indexOf` finds the first occurrence of that character. */
  lemma IndexOfChar(s: string, c: char)
    ensures Contains(s, [c]) <==> c in s
    ensures c in s ==>
      (0 <= IndexOf(s, [c]) < |s| && s[IndexOf(s, [c])] == c && c !in s[..IndexOf(s, [c])])
  {
    IndexOfFinds(s, [c]);
    var r := IndexOf(s, [c]);
    if r >= 0 {
      assert s[r..r + 1] == [c];
      assert s[r] == c;
      forall j | 0 <= j < r ensures s[j] != c {
        assert !OccursAt(s, [c], j);
        assert s[j..j + 1] == [s[j]];
      }
    }
    if c in s {
      var k :| 0 <= k < |s| && s[k] == c;
      assert OccursAt(s, [c], k);
    }
  }

  /** For a one-character needle, `indexOf(c, i)` finds the first `c` at or
      after `i`. */
  lemma IndexFromChar(s: string, c: char, i: nat)
    requires i <= |s|
    ensures var r := IndexFrom(s, [c], i);
      && (r == -1 || (i <= r < |s| && s[r] == c && c !in s[i..r]))
      && (r == -1 ==> c !in s[i..])
  {
    IndexFromFinds(s, [c], i);
    var r := IndexFrom(s, [c], i);
    if r >= 0 {
      assert s[r..r + 1] == [c];
      forall j | i <= j < r ensures s[j] != c {
        assert !OccursAt(s, [c], j);
        assert s[j..j + 1] == [s[j]];
      }
    } else {
      forall j | i <= j < |s| ensures s[j] != c {
        assert !OccursAt(s, [c], j);
        assert s[j..j + 1] == [s[j]];
      }
    }
  }

  /** Splitting text that has no separator gives the text itself. */
  lemma SplitNoSeparator(s: string, c: char)
    requires c !in s
    ensures Split(s, [c]) == [s]
  {
    IndexOfChar(s, c);
  }

  /** Splitting `a c rest` on `c`, where `a` holds no `c`, gives `a` and then
      the pieces of `rest`. */
  lemma SplitCons(a: string, c: char, rest: string)
    requires c !in a
    ensures Split(a + [c] + rest, [c]) == [a] + Split(rest, [c])
  {
    var s := a + [c] + rest;
    IndexOfChar(s, c);
    var k := IndexOf(s, [c]);
    assert s[|a|] == c;
    assert k == |a|;
    assert s[..k] == a;
    assert s[k + 1..] == rest;
  }

  /** Splitting `a c b` on `c`, where neither part holds `c`, gives back the two parts. */
  lemma SplitAround(a: string, c: char, b: string)
    requires c !in a && c !in b
    ensures Split(a + [c] + b, [c]) == [a, b]
  {
    SplitCons(a, c, b);
    SplitNoSeparator(b, c);
  }

  /** Splitting three words joined by `c` gives back the three words. */
  lemma SplitThree(a: string, c: char, b: string, d: string)
    requires c !in a && c !in b && c !in d
    ensures Split(a + [c] + b + [c] + d, [c]) == [a, b, d]
  {
    assert a + [c] + b + [c] + d == a + [c] + (b + [c] + d);
    SplitCons(a, c, b + [c] + d);
    SplitAround(b, c, d);
  }

  /** `s.lastIndexOf(c)` for a one-character needle, or -1. */
  function LastIndexOfChar(s: string, c: char): (r: int)
    ensures -1 <= r < |s|
    ensures r >= 0 ==> s[r] == c && forall k :: r < k < |s| ==> s[k] != c
    ensures r == -1 ==> forall k :: 0 <= k < |s| ==> s[k] != c
  {
    if |s| == 0 then -1
    else if s[|s| - 1] == c then |s| - 1
    else LastIndexOfChar(s[..|s| - 1], c)
  }

  /** `s.slice(0, end)`: a negative end counts from the back. */
  function SliceTo(s: string, end: int): (r: string)
    ensures end >= 0 ==> r == s[..if end <= |s| then end else |s|]
    ensures end < 0 ==> r == s[..if |s| + end >= 0 then |s| + end else 0]
  {
    if end >= 0 then s[..if end <= |s| then end else |s|]
    else s[..if |s| + end >= 0 then |s| + end else 0]
  }

  /** The last path component of `s`: the text after its last `/`. */
  function BaseName(s: string): (r: string)
    ensures '/' !in r
    ensures '/' !in s ==> r == s
  {
    s[LastIndexOfChar(s, '/') + 1..]
  }

  /** The last component of `dir/s` is that of `s`, whatever the directory. */
  lemma BaseNameUnderDirectory(dir: string, s: string)
    ensures BaseName(dir + "/" + s) == BaseName(s)
  {
    var p := dir + "/" + s;
    var k := LastIndexOfChar(s, '/');
    var j := LastIndexOfChar(p, '/');
    assert p[|dir|] == '/';
    assert forall i :: 0 <= i < |s| ==> p[|dir| + 1 + i] == s[i];
    if k >= 0 {
      assert p[|dir| + 1 + k] == '/';
      assert j == |dir| + 1 + k;
    } else {
      assert j == |dir|;
    }
    assert p[j + 1..] == s[k + 1..];
  }

  // ---------------------------------------------------------------------
  // Splitting, trimming, filtering

  /** `s.split(sep)` for a non-empty literal separator. */
  function Split(s: string, sep: string): seq<string>
    requires |sep| > 0
    decreases |s|
  {
    var k := IndexOf(s, sep);
    if k == -1 then [s] else [s[..k]] + Split(s[k + |sep|..], sep)
  }

  /** The pieces of a split hold no character the text does not hold. */
  lemma {:induction false} SplitPiecesOf(s: string, sep: string, c: char)
    requires |sep| > 0 && c !in s
    ensures forall x :: x in Split(s, sep) ==> c !in x
    decreases |s|
  {
    var k := IndexOf(s, sep);
    if k != -1 {
      assert c !in s[..k];
      assert c !in s[k + |sep|..];
      SplitPiecesOf(s[k + |sep|..], sep, c);
    }
  }

  /** No piece of a split at one character holds that character. */
  lemma {:induction false} SplitPiecesLackSeparator(s: string, c: char)
    ensures forall x :: x in Split(s, [c]) ==> c !in x
    decreases |s|
  {
    IndexOfChar(s, c);
    var k := IndexOf(s, [c]);
    if k != -1 {
      SplitPiecesLackSeparator(s[k + 1..], c);
    }
  }

  /** `ws.join(sep)`. */
  function Join(ws: seq<string>, sep: string): string
    decreases |ws|
  {
    if |ws| == 0 then "" else if |ws| == 1 then ws[0] else ws[0] + sep + Join(ws[1..], sep)
  }

  /** Text without the first character of `sep` holds no `sep`. */
  lemma NoSeparatorWithoutItsHead(s: string, sep: string)
    requires |sep| > 0 && sep[0] !in s
    ensures Split(s, sep) == [s]
  {
    IndexOfFinds(s, sep);
  }

  /** Splitting `a sep rest`, where `a` lacks the head of `sep`, gives `a`
      and then the pieces of `rest`. */
  lemma SplitConsSeparator(a: string, sep: string, rest: string)
    requires |sep| > 0 && sep[0] !in a
    ensures Split(a + sep + rest, sep) == [a] + Split(rest, sep)
  {
    var s := a + sep + rest;
    IndexOfFinds(s, sep);
    assert s[|a|..|a| + |sep|] == sep;
    assert OccursAt(s, sep, |a|);
    var k := IndexOf(s, sep);
    assert k == |a|;
    assert s[..k] == a;
    assert s[k + |sep|..] == rest;
  }

  /** Splitting joined lines gives the lines back, provided no line holds the
      first character of the separator. */
  lemma {:induction false} SplitOfJoin(ws: seq<string>, sep: string)
    requires |sep| > 0 && |ws| > 0
    requires forall i :: 0 <= i < |ws| ==> sep[0] !in ws[i]
    ensures Split(Join(ws, sep), sep) == ws
    decreases |ws|
  {
    if |ws| == 1 {
      NoSeparatorWithoutItsHead(ws[0], sep);
    } else {
      SplitConsSeparator(ws[0], sep, Join(ws[1..], sep));
      SplitOfJoin(ws[1..], sep);
    }
  }

  /** `s.split(sep)[n]`, which is `undefined` past the last piece. */
  function Piece(s: string, sep: string, n: nat): Option<string>
    requires |sep| > 0
  {
    var ps := Split(s, sep);
    if n < |ps| then Some(ps[n]) else None
  }

  /** `s.split(sep)[0]`: everything before the first `sep`. */
  function BeforeFirst(s: string, sep: string): string
    requires |sep| > 0
  {
    var k := IndexOf(s, sep);
    if k == -1 then s else s[..k]
  }

  /** The text before the first separator is a prefix without a separator,
      followed by the separator when there is one. */
  lemma BeforeFirstSpec(s: string, sep: string)
    requires |sep| > 0
    ensures var r := BeforeFirst(s, sep);
      && StartsWith(s, r) && !Contains(r, sep)
      && (Contains(s, sep) ==> OccursAt(s, sep, |r|))
      && (!Contains(s, sep) ==> r == s)
  {
    var k := IndexOf(s, sep);
    IndexOfFinds(s, sep);
    if k != -1 {
      IndexOfFinds(s[..k], sep);
      var j := IndexOf(s[..k], sep);
      if j >= 0 {
        assert s[..k][j..j + |sep|] == s[j..j + |sep|];
        assert OccursAt(s, sep, j);
      }
    }
  }

  lemma FirstPieceIsBeforeFirst(s: string, sep: string)
    requires |sep| > 0
    ensures Split(s, sep)[0] == BeforeFirst(s, sep)
  {
  }

  /** A source line both line parsers keep: not empty and not starting with `//`. */
  predicate IsCommandLine(line: string) {
    line != "" && !StartsWith(line, "//")
  }

  /** `lines.filter(line => line !== '' && line.indexOf("//") !== 0)`. */
  function CommandLines(lines: seq<string>): (r: seq<string>)
    ensures |r| <= |lines|
    ensures forall i :: 0 <= i < |r| ==> IsCommandLine(r[i])
    ensures forall x :: x in r <==> x in lines && IsCommandLine(x)
  {
    if lines == [] then []
    else (if IsCommandLine(lines[0]) then [lines[0]] else []) + CommandLines(lines[1..])
  }

  /** The filter keeps the order of the lines it keeps. */
  lemma {:induction false} CommandLinesOfConcat(a: seq<string>, b: seq<string>)
    ensures CommandLines(a + b) == CommandLines(a) + CommandLines(b)
  {
    if a != [] {
      assert (a + b)[1..] == a[1..] + b;
      CommandLinesOfConcat(a[1..], b);
    } else {
      assert a + b == b;
    }
  }

  /** `command.split("//")[0]`: the command without its trailing comment. */
  function StripComment(command: string): string {
    BeforeFirst(command, "//")
  }

  /** What `advance` keeps of a line is the text before its first `//`: a
      prefix with no `//` in it, followed by `//` when the line has one, and
      the whole line when it has none. */
  lemma StripCommentSpec(command: string)
    ensures StartsWith(command, StripComment(command)) && !Contains(StripComment(command), "//")
    ensures Contains(command, "//") ==> OccursAt(command, "//", |StripComment(command)|)
    ensures !Contains(command, "//") ==> StripComment(command) == command
  {
    BeforeFirstSpec(command, "//");
  }

  /** The command the cursor shows at line `i`. Both line parsers strip
      trailing comments only in `advance`, so the first instruction is shown
      as it was read. */
  function CommandAt(instructions: seq<string>, i: nat): string
    requires i < |instructions|
  {
    if i == 0 then instructions[0] else StripComment(instructions[i])
  }

  /** The commands the cursor shows, line by line. */
  function Commands(instructions: seq<string>): (r: seq<string>)
    ensures |r| == |instructions|
    ensures forall i :: 0 <= i < |r| ==> r[i] == CommandAt(instructions, i)
  {
    seq(|instructions|, i requires 0 <= i < |instructions| => CommandAt(instructions, i))
  }

  /** The characters that JavaScript's `trim` removes (WhiteSpace and
      LineTerminator of ECMA-262). */
  predicate IsJsSpace(c: char) {
    c == ' ' || c == '\t' || c == '\n' || c == '\r' || c == '\U{000B}' || c == '\U{000C}'
    || c == '\U{00A0}' || c == '\U{1680}' || ('\U{2000}' <= c <= '\U{200A}')
    || c == '\U{2028}' || c == '\U{2029}' || c == '\U{202F}' || c == '\U{205F}'
    || c == '\U{3000}' || c == '\U{FEFF}'
  }

  function TrimStart(s: string): (r: string)
    ensures |r| <= |s| && s[|s| - |r|..] == r
    ensures |r| > 0 ==> !IsJsSpace(r[0])
    ensures forall i :: 0 <= i < |s| - |r| ==> IsJsSpace(s[i])
  {
    if |s| > 0 && IsJsSpace(s[0]) then TrimStart(s[1..]) else s
  }

  function TrimEnd(s: string): (r: string)
    ensures |r| <= |s| && s[..|r|] == r
    ensures |r| > 0 ==> !IsJsSpace(r[|r| - 1])
    ensures forall i :: |r| <= i < |s| ==> IsJsSpace(s[i])
  {
    if |s| > 0 && IsJsSpace(s[|s| - 1]) then TrimEnd(s[..|s| - 1]) else s
  }

  /** `s.trim()`: white space off both ends. */
  function Trim(s: string): (r: string)
    ensures |r| <= |s|
    ensures |r| > 0 ==> !IsJsSpace(r[0]) && !IsJsSpace(r[|r| - 1])
  {
    TrimEnd(TrimStart(s))
  }

  /** The trim of `s` is the one slice of `s` that neither starts nor ends
      with white space and has only white space around it. */
  lemma TrimSlice(s: string)
    ensures var r, j := Trim(s), |s| - |TrimStart(s)|;
      && j + |r| <= |s| && s[j..j + |r|] == r
      && (forall i :: 0 <= i < j ==> IsJsSpace(s[i]))
      && (forall i :: j + |r| <= i < |s| ==> IsJsSpace(s[i]))
  {
    var t := TrimStart(s);
    var r := TrimEnd(t);
    assert Trim(s) == r;
    SliceOfSuffix(s, t, r);
    SpacesAfterSlice(s, t, |r|);
  }

  /** A prefix `r` of a suffix `t` of `s` is the slice of `s` where `t` starts. */
  lemma SliceOfSuffix(s: string, t: string, r: string)
    requires |t| <= |s| && s[|s| - |t|..] == t && |r| <= |t| && t[..|r|] == r
    ensures s[|s| - |t|..|s| - |t| + |r|] == r
  {
    assert s[|s| - |t|..][..|r|] == s[|s| - |t|..|s| - |t| + |r|];
  }

  /** White space in a suffix `t` of `s` from position `k` on is white space
      in `s` from the matching position on. */
  lemma SpacesAfterSlice(s: string, t: string, k: nat)
    requires |t| <= |s| && s[|s| - |t|..] == t && k <= |t|
    requires forall i :: k <= i < |t| ==> IsJsSpace(t[i])
    ensures forall i :: |s| - |t| + k <= i < |s| ==> IsJsSpace(s[i])
  {
    forall i | |s| - |t| + k <= i < |s| ensures IsJsSpace(s[i]) {
      assert s[i] == t[i - (|s| - |t|)];
    }
  }

  /** Text that neither starts nor ends with a space is its own trim. */
  lemma TrimUnchanged(s: string)
    requires s != "" && !IsJsSpace(s[0]) && !IsJsSpace(s[|s| - 1])
    ensures Trim(s) == s
  {
  }

  /** Trimming adds no character. */
  lemma TrimAvoids(s: string, c: char)
    requires c !in s
    ensures c !in TrimStart(s) && c !in TrimEnd(s) && c !in Trim(s)
  {
    var t := TrimStart(s);
    assert c !in s[|s| - |t|..];
    assert c !in s[..|TrimEnd(s)|];
    assert c !in t[..|TrimEnd(t)|];
  }

  /** Text made only of spaces trims to nothing. */
  lemma {:induction false} TrimOfSpaces(s: string)
    requires forall i :: 0 <= i < |s| ==> IsJsSpace(s[i])
    ensures TrimStart(s) == "" && Trim(s) == ""
    decreases |s|
  {
    if s != "" {
      TrimOfSpaces(s[1..]);
    }
  }

  /** Text that trims to nothing is made only of spaces. */
  lemma SpacesOfEmptyTrim(s: string)
    requires Trim(s) == ""
    ensures forall i :: 0 <= i < |s| ==> IsJsSpace(s[i])
  {
    assert TrimEnd(TrimStart(s)) == "";
  }

  /** `s.replace(/c/g, '')`. */
  function RemoveChar(s: string, c: char): (r: string)
    ensures forall i :: 0 <= i < |r| ==> r[i] != c
    ensures |r| <= |s|
  {
    if s == [] then [] else (if s[0] == c then [] else [s[0]]) + RemoveChar(s[1..], c)
  }

  /** Removing a character adds no other. */
  lemma {:induction false} RemoveCharAvoids(s: string, c: char, d: char)
    requires d !in s
    ensures d !in RemoveChar(s, c)
    decreases |s|
  {
    if s != [] {
      RemoveCharAvoids(s[1..], c, d);
    }
  }

  /** Text without the character is kept as it is. */
  lemma {:induction false} RemoveCharAbsent(s: string, c: char)
    requires c !in s
    ensures RemoveChar(s, c) == s
    decreases |s|
  {
    if s != [] {
      RemoveCharAbsent(s[1..], c);
      assert [s[0]] + s[1..] == s;
    }
  }

  /** Removing a character distributes over concatenation. */
  lemma {:induction false} RemoveCharOfConcat(a: string, b: string, c: char)
    ensures RemoveChar(a + b, c) == RemoveChar(a, c) + RemoveChar(b, c)
    decreases |a|
  {
    if a == [] {
      assert a + b == b;
    } else {
      assert (a + b)[0] == a[0] && (a + b)[1..] == a[1..] + b;
      RemoveCharOfConcat(a[1..], b, c);
    }
  }

  /** Every piece with the character removed. */
  function RemoveCharAll(ws: seq<string>, c: char): (r: seq<string>)
    ensures |r| == |ws|
    ensures forall i :: 0 <= i < |ws| ==> r[i] == RemoveChar(ws[i], c)
  {
    seq(|ws|, i requires 0 <= i < |ws| => RemoveChar(ws[i], c))
  }

  /** Removing a character the separator lacks from joined pieces removes
      it from each piece. */
  lemma {:induction false} RemoveCharOfJoin(ws: seq<string>, sep: string, c: char)
    requires c !in sep
    ensures RemoveChar(Join(ws, sep), c) == Join(RemoveCharAll(ws, c), sep)
    decreases |ws|
  {
    if |ws| >= 2 {
      RemoveCharOfConcat(ws[0] + sep, Join(ws[1..], sep), c);
      RemoveCharOfConcat(ws[0], sep, c);
      RemoveCharAbsent(sep, c);
      RemoveCharOfJoin(ws[1..], sep, c);
      assert RemoveCharAll(ws, c)[1..] == RemoveCharAll(ws[1..], c);
    }
  }

  // ---------------------------------------------------------------------
  // Numbers and their digit strings

  function Pow(b: nat, e: nat): (r: nat)
    ensures b > 0 ==> r > 0
  {
    if e == 0 then 1 else Pow(b, e - 1) * b
  }

  predicate IsDigitIn(c: char, b: nat) {
    ('0' <= c <= '9' && (c as int) - ('0' as int) < b)
    || ('a' <= c <= 'f' && (c as int) - ('a' as int) + 10 < b)
    || ('A' <= c <= 'F' && (c as int) - ('A' as int) + 10 < b)
  }

  predicate AllDigitsIn(s: string, b: nat) {
    forall i :: 0 <= i < |s| ==> IsDigitIn(s[i], b)
  }

  lemma AllDigitsInConcat(x: string, y: string, b: nat)
    ensures AllDigitsIn(x + y, b) <==> AllDigitsIn(x, b) && AllDigitsIn(y, b)
  {
    if AllDigitsIn(x + y, b) {
      forall i | 0 <= i < |x| ensures IsDigitIn(x[i], b) {
        assert x[i] == (x + y)[i];
      }
      forall i | 0 <= i < |y| ensures IsDigitIn(y[i], b) {
        assert y[i] == (x + y)[|x| + i];
      }
    }
    if AllDigitsIn(x, b) && AllDigitsIn(y, b) {
      forall i | 0 <= i < |x + y| ensures IsDigitIn((x + y)[i], b) {
        if i < |x| {
          assert (x + y)[i] == x[i];
        } else {
          assert (x + y)[i] == y[i - |x|];
        }
      }
    }
  }

  /** A non-empty run of decimal digits: the text `/^[0-9]+$/` accepts. */
  predicate IsDecimal(s: string) {
    |s| > 0 && AllDigitsIn(s, 10)
  }

  function DigitValue(c: char): nat {
    if '0' <= c <= '9' then (c as int) - ('0' as int)
    else if 'a' <= c <= 'f' then (c as int) - ('a' as int) + 10
    else if 'A' <= c <= 'F' then (c as int) - ('A' as int) + 10
    else 0
  }

  /** The lower-case digit JavaScript's `toString(b)` writes for `d`. */
  function DigitChar(d: nat): (c: char)
    requires d < 16
    ensures DigitValue(c) == d
    ensures forall b: nat :: d < b ==> IsDigitIn(c, b)
  {
    if d < 10 then (('0' as int) + d) as char else (('a' as int) + d - 10) as char
  }

  // Small facts of non-linear arithmetic, kept apart so that the solver
  // meets them without the string functions in scope.

  lemma DivMod(n: nat, b: nat)
    requires b >= 2
    ensures n % b < b && n == (n / b) * b + n % b
    ensures n >= b ==> 0 < n / b < n
  {
  }

  lemma MulMono(x: int, y: int, b: nat)
    requires x <= y
    ensures x * b <= y * b
  {
  }

  /** One more digit below the base keeps a value below the next power. */
  lemma DigitStepBound(v: nat, d: nat, p: nat, b: nat)
    requires v < p && d < b
    ensures v * b + d < p * b
  {
    MulMono(v + 1, p, b);
    assert (v + 1) * b == v * b + b;
  }

  lemma Distrib(x: int, p: int, y: int, b: int)
    ensures (x * p + y) * b == x * (p * b) + y * b
  {
  }

  lemma ModOfSum(q: nat, p: nat, r: nat)
    requires 0 <= r < p
    ensures (q * p + r) % p == r
  {
    var a := q * p + r;
    var q', r' := a / p, a % p;
    assert a == q' * p + r';
    var k := q' - q;
    assert k * p == r - r';
    if k >= 1 { MulMono(1, k, p); }
    if k <= -1 { MulMono(k, -1, p); }
  }

  /** `n.toString(b)`. */
  function ToBase(n: nat, b: nat): (r: string)
    requires 2 <= b <= 16
    ensures |r| > 0 && AllDigitsIn(r, b)
    decreases n
  {
    DivMod(n, b);
    if n < b then [DigitChar(n)] else ToBase(n / b, b) + [DigitChar(n % b)]
  }

  /** The value of a digit string in base `b`. */
  function ValueIn(s: string, b: nat): nat
    decreases |s|
  {
    if s == [] then 0 else ValueIn(s[..|s| - 1], b) * b + DigitValue(s[|s| - 1])
  }

  /** The value of a short digit string, written out. */
  lemma ValueOfShort(s: string, b: nat)
    ensures |s| == 1 ==> ValueIn(s, b) == DigitValue(s[0])
    ensures |s| == 2 ==> ValueIn(s, b) == DigitValue(s[0]) * b + DigitValue(s[1])
    ensures |s| == 4 ==>
      ValueIn(s, b) == ((DigitValue(s[0]) * b + DigitValue(s[1])) * b + DigitValue(s[2])) * b + DigitValue(s[3])
  {
    if |s| == 1 {
      assert s[..0] == [];
    } else if |s| == 2 {
      ValueOfTwo(s, b);
    } else if |s| == 4 {
      ValueOfTwo(s[..2], b);
      ValueOfFour(s, b);
    }
  }

  lemma ValueOfTwo(s: string, b: nat)
    requires |s| == 2
    ensures ValueIn(s, b) == DigitValue(s[0]) * b + DigitValue(s[1])
  {
    var p1 := s[..1];
    assert p1[..0] == [] && p1[0] == s[0];
    assert ValueIn(p1, b) == DigitValue(s[0]);
  }

  lemma ValueOfFour(s: string, b: nat)
    requires |s| == 4 && ValueIn(s[..2], b) == DigitValue(s[0]) * b + DigitValue(s[1])
    ensures ValueIn(s, b) == ((DigitValue(s[0]) * b + DigitValue(s[1])) * b + DigitValue(s[2])) * b + DigitValue(s[3])
  {
    var p3, p2 := s[..3], s[..2];
    assert p3[..2] == p2 && p3[2] == s[2];
    assert ValueIn(p3, b) == ValueIn(p2, b) * b + DigitValue(s[2]);
  }

  /** Decimal text of a number, as template literals and `+` write it. */
  function NatToString(n: nat): (r: string)
    ensures IsDecimal(r)
  {
    ToBase(n, 10)
  }

  lemma {:induction false} ValueOfToBase(n: nat, b: nat)
    requires 2 <= b <= 16
    ensures ValueIn(ToBase(n, b), b) == n
    decreases n
  {
    DivMod(n, b);
    if n >= b {
      var s := ToBase(n / b, b);
      assert ToBase(n, b) == s + [DigitChar(n % b)];
      assert ToBase(n, b)[..|ToBase(n, b)| - 1] == s;
      ValueOfToBase(n / b, b);
    }
  }

  lemma NatToStringInjective(m: nat, n: nat)
    ensures NatToString(m) == NatToString(n) <==> m == n
  {
    ValueOfToBase(m, 10);
    ValueOfToBase(n, 10);
  }

  function Zeros(w: nat): (r: string)
    ensures |r| == w && forall i :: 0 <= i < w ==> r[i] == '0'
  {
    if w == 0 then "" else "0" + Zeros(w - 1)
  }

  /** `('0'.repeat(w) + s).slice(-w)`: `s` zero-padded or cut to its last `w` characters. */
  function PadTo(s: string, w: nat): (r: string)
    ensures |r| == w
  {
    var t := Zeros(w) + s;
    t[|t| - w..]
  }

  lemma {:induction false} ValueOfConcat(x: string, y: string, b: nat)
    ensures ValueIn(x + y, b) == ValueIn(x, b) * Pow(b, |y|) + ValueIn(y, b)
    decreases |y|
  {
    if y != [] {
      var y' := y[..|y| - 1];
      assert (x + y)[..|x + y| - 1] == x + y';
      ValueOfConcat(x, y', b);
      Distrib(ValueIn(x, b), Pow(b, |y'|), ValueIn(y', b), b);
    } else {
      assert x + y == x;
    }
  }

  lemma {:induction false} ValueBound(s: string, b: nat)
    requires 2 <= b && AllDigitsIn(s, b)
    ensures ValueIn(s, b) < Pow(b, |s|)
    decreases |s|
  {
    if s != [] {
      var s' := s[..|s| - 1];
      assert AllDigitsIn(s', b);
      ValueBound(s', b);
      var v, p, d := ValueIn(s', b), Pow(b, |s'|), DigitValue(s[|s| - 1]);
      assert IsDigitIn(s[|s| - 1], b);
      assert d < b;
      assert ValueIn(s, b) == v * b + d && Pow(b, |s|) == p * b;
      DigitStepBound(v, d, p, b);
    }
  }

  lemma {:induction false} ValueOfZeros(w: nat, b: nat)
    ensures ValueIn(Zeros(w), b) == 0
    decreases w
  {
    if w > 0 {
      assert Zeros(w)[..w - 1] == Zeros(w - 1);
      ValueOfZeros(w - 1, b);
    }
  }

  /** Padding to width `w` keeps the value of the last `w` digits. */
  lemma PadToValue(s: string, w: nat, b: nat)
    requires 2 <= b && AllDigitsIn(s, b)
    ensures AllDigitsIn(PadTo(s, w), b)
    ensures ValueIn(PadTo(s, w), b) == ValueIn(s, b) % Pow(b, w)
  {
    var t := Zeros(w) + s;
    var x, y := t[..|t| - w], t[|t| - w..];
    assert t == x + y;
    assert AllDigitsIn(t, b);
    assert AllDigitsIn(y, b);
    ValueOfConcat(Zeros(w), s, b);
    ValueOfZeros(w, b);
    ValueOfConcat(x, y, b);
    ValueBound(y, b);
    ModOfSum(ValueIn(x, b), Pow(b, w), ValueIn(y, b));
  }

  /** JavaScript's `String(n)` for the result of `parseInt`: `NaN` when no digits were read. */
  function NumberText(n: Option<nat>, b: nat): string
    requires 2 <= b <= 16
  {
    if n.Some? then ToBase(n.value, b) else "NaN"
  }

  /** The longest prefix of `s` made of digits of base `b`, as `parseInt` reads it. */
  function DigitPrefix(s: string, b: nat): string {
    if |s| > 0 && IsDigitIn(s[0], b) then [s[0]] + DigitPrefix(s[1..], b) else ""
  }

  /** The digit prefix is a prefix of digits that stops at the first
      character that is not one. */
  lemma {:induction false} DigitPrefixSpec(s: string, b: nat)
    ensures var r := DigitPrefix(s, b);
      StartsWith(s, r) && AllDigitsIn(r, b) && (|r| < |s| ==> !IsDigitIn(s[|r|], b))
  {
    if |s| > 0 && IsDigitIn(s[0], b) {
      DigitPrefixSpec(s[1..], b);
      var r := DigitPrefix(s[1..], b);
      assert DigitPrefix(s, b) == [s[0]] + r;
      assert s[1..][..|r|] == r;
      assert s[..|r| + 1] == [s[0]] + s[1..][..|r|];
    }
  }

  lemma {:induction false} DigitPrefixOfDigits(s: string, b: nat)
    ensures AllDigitsIn(s, b) ==> DigitPrefix(s, b) == s
  {
    if |s| > 0 && AllDigitsIn(s, b) {
      assert AllDigitsIn(s[1..], b);
      DigitPrefixOfDigits(s[1..], b);
    }
  }

  /** `parseInt(s, 16)`: an optional `0x` prefix, then the hexadecimal digits
      that follow; `None` (NaN) when there are none. */
  function ParseHex(s: string): Option<nat> {
    var t := if StartsWith(s, "0x") || StartsWith(s, "0X") then s[2..] else s;
    var d := DigitPrefix(t, 16);
    if d == "" then None else Some(ValueIn(d, 16))
  }

  /** `Number(s)` for the index texts of VM commands, `None` standing for
      NaN: `undefined` is NaN, the empty text is 0 and a run of decimal
      digits is its value. Every other text is taken as NaN. */
  function JsNumber(s: Option<string>): Option<nat> {
    if s.None? then None
    else if s.value == "" then Some(0)
    else if IsDecimal(s.value) then Some(ValueIn(s.value, 10))
    else None
  }

  /** The decimal text of a number converts back to it. */
  lemma JsNumberOfDecimal(n: nat)
    ensures JsNumber(Some(NatToString(n))) == Some(n)
  {
    ValueOfToBase(n, 10);
  }

  /** JavaScript's `'' + x`: the text of a string, or `undefined`. */
  function JsText(o: Option<string>): (r: string)
    ensures o.Some? ==> r == o.value
    ensures o.None? ==> r == "undefined"
  {
    if o.Some? then o.value else "undefined"
  }

  lemma DigitsHaveNoX(s: string, b: nat)
    requires AllDigitsIn(s, b) && |s| >= 2
    ensures !StartsWith(s, "0x") && !StartsWith(s, "0X")
  {
    assert IsDigitIn(s[1], b);
    assert s[..2][1] == s[1];
  }

  /** A padded hexadecimal address, with or without `0x`, reads back through
      `parseInt(…, 16)` as the number modulo `16^w`. */
  lemma ParseHexOfPadded(n: nat, w: nat)
    requires w >= 2
    ensures ParseHex(PadTo(ToBase(n, 16), w)) == Some(n % Pow(16, w))
    ensures ParseHex("0x" + PadTo(ToBase(n, 16), w)) == Some(n % Pow(16, w))
  {
    var d := PadTo(ToBase(n, 16), w);
    PadToValue(ToBase(n, 16), w, 16);
    ValueOfToBase(n, 16);
    DigitsHaveNoX(d, 16);
    DigitPrefixOfDigits(d, 16);
    var t := "0x" + d;
    assert StartsWith(t, "0x");
    assert t[2..] == d;
  }

  lemma PowOfTwo16()
    ensures Pow(2, 16) == 65536
  {
    assert Pow(2, 4) == 16;
    assert Pow(2, 8) == Pow(2, 4) * 16 by { PowAdd(2, 4, 4); }
    PowAdd(2, 8, 8);
  }

  lemma {:induction false} PowAdd(b: nat, e: nat, f: nat)
    ensures Pow(b, e + f) == Pow(b, e) * Pow(b, f)
    decreases f
  {
    if f > 0 {
      PowAdd(b, e, f - 1);
      assert Pow(b, e + f) == Pow(b, e + f - 1) * b;
      assert Pow(b, e) * Pow(b, f) == Pow(b, e) * (Pow(b, f - 1) * b);
    }
  }

  /** Four hexadecimal digits after `0x` read back as any address below 65536. */
  lemma HexAddressReadsBack(n: nat)
    requires n < 65536
    ensures ParseHex("0x" + PadTo(ToBase(n, 16), 4)) == Some(n)
  {
    ParseHexOfPadded(n, 4);
    PowAdd(16, 2, 2);
    assert Pow(16, 2) == 256;
    ModOfSum(0, 65536, n);
  }

  /** The 16-character binary text `('0'.repeat(16) + n.toString(2)).slice(-16)`
      is binary and holds the low 16 bits of `n`. */
  lemma BinaryWord(n: nat)
    ensures |PadTo(ToBase(n, 2), 16)| == 16 && AllDigitsIn(PadTo(ToBase(n, 2), 16), 2)
    ensures ValueIn(PadTo(ToBase(n, 2), 16), 2) == n % 65536
  {
    PadToValue(ToBase(n, 2), 16, 2);
    ValueOfToBase(n, 2);
    PowOfTwo16();
  }

  /** `parseInt(s)` (base ten) on text without leading blanks or sign: the
      value of the leading decimal digits, `None` (NaN) when there are none. */
  function ParseDecimal(s: string): (r: Option<nat>)
    ensures IsDecimal(s) ==> r == Some(ValueIn(s, 10))
    ensures s == "" ==> r.None?
  {
    DigitPrefixOfDigits(s, 10);
    var d := DigitPrefix(s, 10);
    if d == "" then None else Some(ValueIn(d, 10))
  }

  /** `parseInt(s)` for a decimal digit string. */
  function DecimalValue(s: string): nat {
    ValueIn(s, 10)
  }
}
