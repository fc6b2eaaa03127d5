/** user/grep.c: the Kernighan-Pike matcher for ^ . * $ and the line buffer around it.

    C strings are sequences of characters without their terminating NUL. */
module Grep {

  const NUL: char := '\0'
  const NL: char := '\n'

  // ------------------------------------------------ what a pattern means

  /** A pattern element: one character, any number of them, or the end of the text.
      The character '.' stands for every character. */
  datatype Item = One(c: char) | Many(c: char) | AtEnd

  function Parse(re: string): (items: seq<Item>)
    ensures |items| <= |re|
  {
    if re == [] then []
    else if |re| >= 2 && re[1] == '*' then [Many(re[0])] + Parse(re[2..])
    else if re == "$" then [AtEnd]
    else [One(re[0])] + Parse(re[1..])
  }

  predicate Admits(c: char, x: char) { c == '.' || c == x }

  /** Item `it` matches text[a..b]. */
  ghost predicate Piece(it: Item, text: string, a: nat, b: nat) {
    && a <= b <= |text|
    && match it
       case One(c) => b == a + 1 && Admits(c, text[a])
       case Many(c) => forall i :: a <= i < b ==> Admits(c, text[i])
       case AtEnd => a == b == |text|
  }

  /** The text can be cut, from its start, into consecutive pieces that match the items in turn. */
  ghost predicate CutBy(items: seq<Item>, text: string, cuts: seq<nat>) {
    && |cuts| == |items| + 1 && cuts[0] == 0
    && forall i :: 0 <= i < |items| ==> Piece(items[i], text, cuts[i], cuts[i + 1])
  }

  ghost predicate Here(items: seq<Item>, text: string) {
    exists cuts :: CutBy(items, text, cuts)
  }

  /** A line matches: at its start after a leading ^, anywhere in it otherwise. */
  ghost predicate Matches(re: string, text: string) {
    if re != [] && re[0] == '^' then Here(Parse(re[1..]), text)
    else exists i :: 0 <= i <= |text| && Here(Parse(re), text[i..])
  }

  // --------------------------------------- cutting off the first item

  lemma HereNil(text: string)
    ensures Here([], text)
  {
    assert CutBy([], text, [0]);
  }

  function Shifted(cuts: seq<nat>, d: nat): seq<nat> {
    seq(|cuts|, i requires 0 <= i < |cuts| => cuts[i] + d)
  }

  /** The rest of the items cut the rest of the text. */
  lemma HereCons(it: Item, rest: seq<Item>, text: string, k: nat)
    requires Piece(it, text, 0, k) && Here(rest, text[k..])
    ensures Here([it] + rest, text)
  {
    var cuts :| CutBy(rest, text[k..], cuts);
    var all := [0] + Shifted(cuts, k);
    var items := [it] + rest;
    forall i | 0 <= i < |items| ensures Piece(items[i], text, all[i], all[i + 1]) {
      if i > 0 {
        assert Piece(rest[i - 1], text[k..], cuts[i - 1], cuts[i]);
      }
    }
    assert CutBy(items, text, all);
  }

  lemma HereUncons(it: Item, rest: seq<Item>, text: string) returns (k: nat)
    requires Here([it] + rest, text)
    ensures Piece(it, text, 0, k) && Here(rest, text[k..])
  {
    var items := [it] + rest;
    var cuts :| CutBy(items, text, cuts);
    k := cuts[1];
    assert Piece(items[0], text, cuts[0], cuts[1]);
    CutsGrow(items, text, cuts, 1);
    var tail :=
        seq(|rest| + 1, i requires 0 <= i <= |rest| => (if cuts[i + 1] >= k then cuts[i + 1] - k else 0) as nat);
    forall i | 0 <= i < |rest| ensures Piece(rest[i], text[k..], tail[i], tail[i + 1]) {
      assert Piece(items[i + 1], text, cuts[i + 1], cuts[i + 2]);
    }
    assert CutBy(rest, text[k..], tail);
  }

  lemma {:induction false} CutsGrow(items: seq<Item>, text: string, cuts: seq<nat>, j: nat)
    requires CutBy(items, text, cuts) && j < |cuts|
    ensures forall i :: j <= i < |cuts| ==> cuts[j] <= cuts[i]
    decreases |cuts| - j
  {
    if j + 1 < |cuts| {
      CutsGrow(items, text, cuts, j + 1);
      assert Piece(items[j], text, cuts[j], cuts[j + 1]);
    }
  }

  lemma HereOne(c: char, rest: seq<Item>, text: string)
    ensures Here([One(c)] + rest, text) <==> text != [] && Admits(c, text[0]) && Here(rest, text[1..])
  {
    if Here([One(c)] + rest, text) {
      var k := HereUncons(One(c), rest, text);
    }
    if text != [] && Admits(c, text[0]) && Here(rest, text[1..]) {
      HereCons(One(c), rest, text, 1);
    }
  }

  lemma HereAtEnd(text: string)
    ensures Here([AtEnd], text) <==> text == []
  {
    assert [AtEnd] + [] == [AtEnd];
    if Here([AtEnd], text) {
      var k := HereUncons(AtEnd, [], text);
    }
    if text == [] {
      HereNil(text[0..]);
      HereCons(AtEnd, [], text, 0);
    }
  }

  /** A starred item may match any run of admitted characters. */
  lemma HereMany(c: char, rest: seq<Item>, text: string)
    ensures Here([Many(c)] + rest, text)
            <==> exists k :: 0 <= k <= |text| && Here(rest, text[k..]) && forall i :: 0 <= i < k ==> Admits(c, text[i])
  {
    if Here([Many(c)] + rest, text) {
      var k := HereUncons(Many(c), rest, text);
    }
    if k: nat :| k <= |text| && Here(rest, text[k..]) && forall i :: 0 <= i < k ==> Admits(c, text[i]) {
      HereCons(Many(c), rest, text, k);
    }
  }

  // ---------------------------------------- what that means for whole patterns

  /** No character of the pattern but '.' is special; a '^' is not, past the first place. */
  predicate Plain(lit: string) { forall i :: 0 <= i < |lit| ==> lit[i] != '*' && lit[i] != '$' }

  /** The text starts with these characters, '.' standing for any. */
  ghost predicate Fits(lit: string, text: string) {
    |lit| <= |text| && forall i :: 0 <= i < |lit| ==> lit[i] == '.' || lit[i] == text[i]
  }

  lemma FitsNext(lit: string, text: string)
    requires lit != []
    ensures Fits(lit, text) <==> text != [] && Admits(lit[0], text[0]) && Fits(lit[1..], text[1..])
  {
    if text != [] && Admits(lit[0], text[0]) && Fits(lit[1..], text[1..]) {
      forall i | 0 <= i < |lit|
        ensures lit[i] == '.' || lit[i] == text[i]
      {
        if i > 0 { assert lit[1..][i - 1] == lit[i] && text[1..][i - 1] == text[i]; }
      }
    }
  }

  lemma {:induction false} ParseOne(re: string)
    requires re != [] && (|re| >= 2 ==> re[1] != '*') && re != "$"
    ensures Parse(re) == [One(re[0])] + Parse(re[1..])
  {}

  lemma {:induction false} ParsePlain(lit: string, re: string)
    requires Plain(lit) && lit != [] && (re == [] || re[0] != '*')
    ensures lit[1..] + re == (lit + re)[1..] && Plain(lit[1..])
    ensures Parse(lit + re) == [One(lit[0])] + Parse(lit[1..] + re)
  {
    hide Parse;
    var all := lit + re;
    assert all[0] == lit[0] && all[1..] == lit[1..] + re;
    assert |all| >= 2 ==> all[1] == if |lit| > 1 then lit[1] else re[0];
    ParseOne(all);
  }

  /** Plain characters match themselves, and the rest of the pattern what follows. */
  lemma {:induction false} PlainThen(lit: string, re: string, text: string)
    requires Plain(lit) && (re == [] || re[0] != '*')
    ensures Here(Parse(lit + re), text) <==> Fits(lit, text) && Here(Parse(re), text[|lit|..])
    decreases |lit|
  {
    hide Here, Fits, Parse;
    if lit == [] {
      assert lit + re == re && text[0..] == text;
      assert Fits(lit, text) by { FitsNone(text); }
    } else {
      ParsePlain(lit, re);
      HereOne(lit[0], Parse(lit[1..] + re), text);
      FitsNext(lit, text);
      FitsLength(lit, text);
      if text != [] {
        PlainThen(lit[1..], re, text[1..]);
        if |lit| <= |text| { assert text[1..][|lit| - 1..] == text[|lit|..]; }
      }
    }
  }

  lemma FitsNone(text: string)
    ensures Fits([], text)
  {}

  lemma FitsLength(lit: string, text: string)
    ensures Fits(lit, text) ==> |lit| <= |text|
  {}

  /** A plain pattern selects the lines that have it somewhere. */
  lemma PlainMatches(lit: string, text: string)
    requires Plain(lit) && (lit == [] || lit[0] != '^')
    ensures Matches(lit, text) <==> exists i :: 0 <= i <= |text| && Fits(lit, text[i..])
  {
    hide Here, Fits, Parse;
    assert lit + [] == lit;
    forall i | 0 <= i <= |text|
      ensures Here(Parse(lit), text[i..]) <==> Fits(lit, text[i..])
    {
      PlainThen(lit, [], text[i..]);
      FitsLength(lit, text[i..]);
      if |lit| <= |text[i..]| { EmptyHere(text[i..][|lit|..]); }
    }
  }

  lemma EmptyHere(text: string)
    ensures Here(Parse([]), text)
  {
    HereNil(text);
  }

  /** After ^, those that start with it. */
  lemma StartMatches(lit: string, text: string)
    requires Plain(lit)
    ensures Matches("^" + lit, text) <==> Fits(lit, text)
  {
    hide Here, Fits, Parse;
    assert ("^" + lit)[1..] == lit == lit + [];
    PlainThen(lit, [], text);
    FitsLength(lit, text);
    if |lit| <= |text| { EmptyHere(text[|lit|..]); }
  }

  lemma EndHere(lit: string, text: string)
    requires Plain(lit)
    ensures Here(Parse(lit + "$"), text) <==> Fits(lit, text) && |text| == |lit|
  {
    hide Here, Fits;
    PlainThen(lit, "$", text);
    FitsLength(lit, text);
    if |lit| <= |text| { HereAtEnd(text[|lit|..]); }
  }

  /** Before $, those that end with it. */
  lemma EndMatches(lit: string, text: string)
    requires Plain(lit) && (lit == [] || lit[0] != '^')
    ensures Matches(lit + "$", text) <==> |lit| <= |text| && Fits(lit, text[|text| - |lit|..])
  {
    hide Here, Fits, Parse;
    forall i | 0 <= i <= |text|
      ensures Here(Parse(lit + "$"), text[i..]) <==> Fits(lit, text[i..]) && i == |text| - |lit|
    {
      EndHere(lit, text[i..]);
    }
  }

  /** Between both, exactly those it fits. */
  lemma WholeMatches(lit: string, text: string)
    requires Plain(lit)
    ensures Matches("^" + lit + "$", text) <==> Fits(lit, text) && |text| == |lit|
  {
    assert ("^" + lit + "$")[1..] == lit + "$";
    EndHere(lit, text);
  }

  /** A starred character after plain ones: any run of it, and then the rest of the pattern. */
  lemma StarMatches(lit: string, c: char, re: string, text: string)
    requires Plain(lit) && c != '*'
    ensures Matches("^" + (lit + ([c, '*'] + re)), text) <==>
            && Fits(lit, text)
            && (exists k :: |lit| <= k <= |text| && Matches("^" + re, text[k..]) && RunOf(c, text, |lit|, k))
  {
    hide Here, Fits, Parse;
    var star := [c, '*'] + re;
    assert ("^" + (lit + star))[1..] == lit + star && ("^" + re)[1..] == re;
    PlainThen(lit, star, text);
    FitsLength(lit, text);
    if |lit| <= |text| {
      ParseStar(c, re);
      StarRun(c, re, text, |lit|);
    }
  }

  lemma ParseStar(c: char, re: string)
    ensures Parse([c, '*'] + re) == [Many(c)] + Parse(re)
  {
    assert ([c, '*'] + re)[2..] == re;
  }

  /** text[a..b] is a run of this character, or of any for '.'. */
  ghost predicate RunOf(c: char, text: string, a: nat, b: nat) {
    b <= |text| && forall i :: a <= i < b ==> c == '.' || text[i] == c
  }

  lemma StarRun(c: char, re: string, text: string, n: nat)
    requires n <= |text|
    ensures Here([Many(c)] + Parse(re), text[n..]) <==>
            exists k :: n <= k <= |text| && Here(Parse(re), text[k..]) && RunOf(c, text, n, k)
  {
    hide Here, Parse;
    var rest := text[n..];
    HereMany(c, Parse(re), rest);
    if k :| 0 <= k <= |rest| && Here(Parse(re), rest[k..]) && forall i :: 0 <= i < k ==> Admits(c, rest[i]) {
      assert rest[k..] == text[n + k..];
      assert forall i :: n <= i < n + k ==> text[i] == rest[i - n];
      assert RunOf(c, text, n, n + k);
    }
    if k :| n <= k <= |text| && Here(Parse(re), text[k..]) && RunOf(c, text, n, k) {
      assert rest[k - n..] == text[k..];
    }
  }

  // ------------------------------------------------------------ the matcher

  /** matchhere(): does the pattern match at the start of the text? */
  method MatchHere(re: string, text: string) returns (r: bool)
    ensures r <==> Here(Parse(re), text)
    decreases |re|, 0
  {
    if |re| == 0 {
      HereNil(text);
      return true;
    }
    if |re| >= 2 && re[1] == '*' {
      r := MatchStar(re[0], re[2..], text);
      return;
    }
    if re[0] == '$' && |re| == 1 {
      assert re == "$";
      HereAtEnd(text);
      return text == [];
    }
    HereOne(re[0], Parse(re[1..]), text);
    if text != [] && (re[0] == '.' || re[0] == text[0]) {
      r := MatchHere(re[1..], text[1..]);
      return;
    }
    return false;
  }

  /** matchstar(): does c*re match at the start of the text? */
  method MatchStar(c: char, re: string, text: string) returns (r: bool)
    ensures r <==> Here([Many(c)] + Parse(re), text)
    decreases |re|, 1
  {
    HereMany(c, Parse(re), text);
    var t := 0;
    while true
      invariant t <= |text|
      invariant forall i :: 0 <= i < t ==> Admits(c, text[i])
      invariant forall k :: 0 <= k < t ==> !Here(Parse(re), text[k..])
      decreases |text| - t
    {
      var here := MatchHere(re, text[t..]);
      if here {
        return true;
      }
      if t == |text| || !(text[t] == c || c == '.') {
        return false;
      }
      t := t + 1;
    }
  }

  /** match(): does the pattern match anywhere in the text? */
  method Match(re: string, text: string) returns (r: bool)
    ensures r <==> Matches(re, text)
  {
    if |re| > 0 && re[0] == '^' {
      r := MatchHere(re[1..], text);
      return;
    }
    var t := 0;
    while true
      invariant t <= |text|
      invariant forall k :: 0 <= k < t ==> !Here(Parse(re), text[k..])
      decreases |text| - t
    {
      var here := MatchHere(re, text[t..]);
      if here {
        return true;
      }
      if t == |text| {
        return false;
      }
      t := t + 1;
    }
  }

  // --------------------------------------------------------- lines of input

  const BUFSIZE: nat := 1024

  ghost predicate NoNewline(text: string) { forall i :: 0 <= i < |text| ==> text[i] != NL }

  /** The index of the first newline. */
  ghost function LineEnd(text: string): (k: nat)
    requires NL in text
    ensures k < |text| && text[k] == NL && forall i :: 0 <= i < k ==> text[i] != NL
  {
    if text[0] == NL then 0 else LineEnd(text[1..]) + 1
  }

  /** The newline-terminated lines that match, in order; a last line without newline is dropped. */
  ghost function Selected(re: string, text: string): string {
    if NL !in text then [] else
      var k := LineEnd(text);
      (if Matches(re, text[..k]) then text[..k + 1] else []) + Selected(re, text[k + 1..])
  }

  /** The leading lines that fit the buffer: everything before the first line of 1024 bytes or
      more (newline included), and nothing of an unterminated last line. */
  ghost function Fitting(text: string): string {
    if NL !in text || LineEnd(text) + 1 >= BUFSIZE then [] else
      text[..LineEnd(text) + 1] + Fitting(text[LineEnd(text) + 1..])
  }

  /** Whole lines, each short enough for the buffer. */
  ghost predicate WholeLines(text: string) { Fitting(text) == text }

  lemma LineEndIs(text: string, k: nat)
    requires k < |text| && text[k] == NL && forall i :: 0 <= i < k ==> text[i] != NL
    ensures NL in text && LineEnd(text) == k
  {}

  lemma {:induction false} FittingCons(text: string)
    requires NL in text && LineEnd(text) + 1 < BUFSIZE
    ensures Fitting(text) == text[..LineEnd(text) + 1] + Fitting(text[LineEnd(text) + 1..])
  {
    hide LineEnd;
  }

  lemma {:induction false} SelectedCons(re: string, text: string)
    requires NL in text
    ensures var k := LineEnd(text);
            Selected(re, text) == (if Matches(re, text[..k]) then text[..k + 1] else []) + Selected(re, text[k + 1..])
  {}

  lemma NoLines(re: string)
    ensures WholeLines([]) && Selected(re, []) == []
  {}

  lemma Rejoined(a: string, k: nat, b: string)
    requires k <= |a|
    ensures a[..k] + (a[k..] + b) == a + b
  {}

  /** Lines already complete do not affect how the following text splits into lines. */
  lemma {:induction false} FittingThen(a: string, b: string)
    requires WholeLines(a)
    ensures Fitting(a + b) == a + Fitting(b)
    decreases |a|
  {
    hide Fitting, WholeLines, LineEnd;
    if a == [] {
      NothingBefore(a, b);
      NothingBefore(a, Fitting(b));
    } else {
      FittingTail(a);
      FirstLine(a, b);
      FittingCons(a + b);
      FittingThen(a[LineEnd(a) + 1..], b);
      Rejoined(a, LineEnd(a) + 1, Fitting(b));
    }
  }

  lemma NothingBefore(a: string, b: string)
    requires a == []
    ensures a + b == b
  {}

  lemma {:induction false} SelectedThen(re: string, a: string, b: string)
    requires WholeLines(a)
    ensures Selected(re, a + b) == Selected(re, a) + Selected(re, b)
    decreases |a|
  {
    hide Matches, Selected, WholeLines, LineEnd;
    if a == [] {
      NoLines(re);
      assert a + b == b;
    } else {
      FittingTail(a);
      FirstLine(a, b);
      SelectedCons(re, a);
      SelectedCons(re, a + b);
      SelectedThen(re, a[LineEnd(a) + 1..], b);
    }
  }

  lemma {:induction false} FirstLine(a: string, b: string)
    requires NL in a
    ensures var k := LineEnd(a);
            && NL in a + b && LineEnd(a + b) == k
            && (a + b)[..k] == a[..k] && (a + b)[..k + 1] == a[..k + 1] && (a + b)[k + 1..] == a[k + 1..] + b
  {
    var k := LineEnd(a);
    assert (a + b)[..k] == a[..k];
    LineEndIs(a + b, k);
  }

  lemma {:induction false} FittingTail(a: string)
    requires WholeLines(a) && a != []
    ensures NL in a && WholeLines(a[LineEnd(a) + 1..]) && LineEnd(a) + 1 < BUFSIZE
  {
    var k := LineEnd(a);
    assert a[k + 1..] == (a[..k + 1] + Fitting(a[k + 1..]))[k + 1..];
  }

  /** One more complete line. */
  lemma {:induction false} OneLine(re: string, line: string)
    requires NoNewline(line) && |line| + 1 < BUFSIZE
    ensures WholeLines(line + [NL])
    ensures Selected(re, line + [NL]) == if Matches(re, line) then line + [NL] else []
  {
    var t := line + [NL];
    assert t[..|line|] == line;
    LineEndIs(t, |line|);
    assert t[|line| + 1..] == [];
  }

  lemma {:induction false} WholeLinesAppend(re: string, a: string, line: string)
    requires WholeLines(a) && NoNewline(line) && |line| + 1 < BUFSIZE
    ensures WholeLines(a + (line + [NL]))
    ensures Selected(re, a + (line + [NL])) == Selected(re, a) + if Matches(re, line) then line + [NL] else []
  {
    OneLine(re, line);
    FittingThen(a, line + [NL]);
    SelectedThen(re, a, line + [NL]);
  }

  /** Nothing fits when no newline comes within the first 1023 bytes. */
  lemma {:induction false} NothingFits(text: string, m: nat)
    requires m <= |text| && (forall i :: 0 <= i < m ==> text[i] != NL) && (m == |text| || m >= BUFSIZE - 1)
    ensures Fitting(text) == []
  {}

  /** With no overlong line, every complete line is examined. */
  lemma {:induction false} AllSelected(re: string, text: string)
    requires NoLongLine(text)
    ensures Selected(re, Fitting(text)) == Selected(re, text)
    decreases |text|
  {
    hide Matches, Selected, Fitting, WholeLines, LineEnd;
    if NL in text {
      var k := LineEnd(text);
      FittingCons(text);
      SelectedCons(re, text);
      var rest := text[k + 1..];
      AllSelected(re, rest);
      assert text[..k + 1] == text[..k] + [NL];
      OneLine(re, text[..k]);
      SelectedThen(re, text[..k + 1], Fitting(rest));
    } else {
      NothingFits(text, |text|);
      NoneSelected(re, text);
      NoLines(re);
    }
  }

  lemma NoneSelected(re: string, text: string)
    requires NL !in text
    ensures Selected(re, text) == []
  {}

  ghost predicate NoLongLine(text: string) {
    NL in text ==> LineEnd(text) + 1 < BUFSIZE && NoLongLine(text[LineEnd(text) + 1..])
  }

  // -------------------------------------------------------- the buffer loop

  /** strchr(): the first newline at or after `p`, or -1 at the NUL. */
  method Strchr(buf: array<char>, p: nat, ghost m: nat) returns (q: int)
    requires p <= m < buf.Length && buf[m] == NUL && forall i :: p <= i < m ==> buf[i] != NUL
    ensures q == -1 ==> forall i :: p <= i < m ==> buf[i] != NL
    ensures q != -1 ==> p <= q < m && buf[q] == NL && forall i :: p <= i < q ==> buf[i] != NL
  {
    q := p;
    while buf[q] != NL
      invariant p <= q <= m && forall i :: p <= i < q ==> buf[i] != NL
      decreases m - q
    {
      if buf[q] == NUL {
        return -1;
      }
      q := q + 1;
    }
  }

  /** How many bytes read() returns: any positive number up to the space and the bytes left. */
  function ReadCount(want: nat, space: nat, left: nat): (n: nat)
    ensures n <= space && n <= left && (n == 0 <==> space == 0 || left == 0)
  {
    var most := if space <= left then space else left;
    if want == 0 && most > 0 then 1 else if want < most then want else most
  }

  /** memmove(buf, buf + p, n). */
  method MoveDown(buf: array<char>, p: nat, n: nat)
    requires p + n <= buf.Length
    modifies buf
    ensures buf[..n] == old(buf[p..p + n])
  {
    var i := 0;
    while i < n
      invariant i <= n
      invariant forall k :: 0 <= k < i ==> buf[k] == old(buf[p + k])
      invariant forall k :: i <= k < buf.Length ==> buf[k] == old(buf[k])
    {
      buf[i] := buf[p + i];
      i := i + 1;
    }
  }

  /** The inner loop of grep(): print the matching complete lines of buf[..m]. */
  method ScanLines(re: string, buf: array<char>, m: nat, ghost fill: string) returns (p: nat, out: string)
    requires m < buf.Length == BUFSIZE && buf[m] == NUL && buf[..m] == fill && NUL !in fill
    modifies buf
    ensures p <= m && buf[p..m] == fill[p..]
    ensures WholeLines(fill[..p]) && out == Selected(re, fill[..p]) && NoNewline(fill[p..])
  {
    hide WholeLines, Selected, Matches;
    NoLines(re);
    p, out := 0, [];
    assert fill[..0] == [];
    while true
      invariant p <= m && buf[m] == NUL
      invariant forall i :: p <= i < m ==> buf[i] == fill[i]
      invariant WholeLines(fill[..p]) && out == Selected(re, fill[..p])
      decreases m - p
    {
      var q := Strchr(buf, p, m);
      if q == -1 {
        return;
      }
      buf[q] := NUL;
      ghost var line := fill[p..q];
      assert buf[p..q] == line;
      var found := Match(re, buf[p..q]);
      if found {
        buf[q] := NL;
        assert buf[p..q + 1] == line + [NL];
        out := out + buf[p..q + 1];
      }
      WholeLinesAppend(re, fill[..p], line);
      assert fill[..q + 1] == fill[..p] + (line + [NL]);
      p := q + 1;
    }
  }

  /** read() into buf + m. */
  method Fill(buf: array<char>, m: nat, data: string)
    requires m + |data| <= buf.Length
    modifies buf
    ensures buf[..m + |data|] == old(buf[..m]) + data
  {
    var i := 0;
    while i < |data|
      invariant i <= |data|
      invariant forall k :: 0 <= k < m ==> buf[k] == old(buf[k])
      invariant forall k :: 0 <= k < i ==> buf[m + k] == data[k]
    {
      buf[m + i] := data[i];
      i := i + 1;
    }
  }

  lemma MoreLines(re: string, a: string, b: string)
    requires WholeLines(a) && WholeLines(b)
    ensures WholeLines(a + b) && Selected(re, a + b) == Selected(re, a) + Selected(re, b)
  {
    FittingThen(a, b);
    SelectedThen(re, a, b);
  }

  /** At the end of the input, or with the buffer full of one unfinished line, grep is done. */
  lemma Finished(re: string, done: string, held: string, rest: string)
    requires WholeLines(done) && NoNewline(held) && (rest == [] || |held| >= BUFSIZE - 1)
    ensures Selected(re, Fitting(done + (held + rest))) == Selected(re, done)
  {
    FittingThen(done, held + rest);
    NothingFits(held + rest, |held|);
    assert done + [] == done;
  }

  /** One pass of grep()'s loop after read() has returned `data`. */
  method Round(re: string, buf: array<char>, m: nat, data: string) returns (left: nat, out: string, ghost lines: string)
    requires buf.Length == BUFSIZE && 0 < |data| && m + |data| < BUFSIZE && NUL !in buf[..m] && NUL !in data
    modifies buf
    ensures left < BUFSIZE && lines + buf[..left] == old(buf[..m]) + data
    ensures NoNewline(buf[..left]) && WholeLines(lines) && out == Selected(re, lines)
  {
    hide WholeLines, Selected;
    ghost var fill := buf[..m] + data;
    Fill(buf, m, data);
    var n := m + |data|;
    buf[n] := NUL;
    assert buf[..n] == fill;
    left, out := ScanLines(re, buf, n, fill);
    lines := fill[..left];
    if n > 0 {
      var p := left;
      left := n - p;
      MoveDown(buf, p, left);
    }
  }

  lemma NulFree(input: string, pos: nat, done: string, held: string)
    requires NUL !in input && pos <= |input| && input[..pos] == done + held
    ensures NUL !in held
  {
    assert forall c :: c in held ==> c in input[..pos];
  }

  /** What was held and what was read are now complete lines and what is left. */
  lemma Carried(input: string, pos: nat, n: nat, done: string, held: string, lines: string, left: string)
    requires pos + n <= |input| && input[..pos] == done + held && lines + left == held + input[pos..pos + n]
    ensures input[..pos + n] == (done + lines) + left
  {
    assert input[..pos + n] == input[..pos] + input[pos..pos + n];
    assert (done + held) + input[pos..pos + n] == done + (held + input[pos..pos + n]);
    assert (done + lines) + left == done + (lines + left);
  }

  lemma Unread(input: string, pos: nat, done: string, held: string)
    requires pos <= |input| && input[..pos] == done + held
    ensures input == done + (held + input[pos..])
  {
    assert input == input[..pos] + input[pos..];
  }

  /** grep(): `wants` is how read() happens to split the input; the output does not depend on it. */
  method Grep(re: string, input: string, wants: seq<nat>, buf: array<char>) returns (out: string)
    requires buf.Length == BUFSIZE && NUL !in input
    modifies buf
    ensures out == Selected(re, Fitting(input))
    ensures NoLongLine(input) ==> out == Selected(re, input)
  {
    hide WholeLines, Selected, Fitting, Matches, NoLongLine;
    var m: nat, pos: nat, calls := 0, 0, 0;
    ghost var done := [];
    out := [];
    NoLines(re);
    while true
      invariant m < BUFSIZE && pos <= |input| && input[..pos] == done + buf[..m]
      invariant NoNewline(buf[..m]) && WholeLines(done) && out == Selected(re, done)
      decreases |input| - pos
    {
      var n := ReadCount(if calls < |wants| then wants[calls] else 0, BUFSIZE - m - 1, |input| - pos);
      calls := calls + 1;
      if n == 0 {
        break;
      }
      ghost var held := buf[..m];
      NulFree(input, pos, done, held);
      var left, found, lines := Round(re, buf, m, input[pos..pos + n]);
      MoreLines(re, done, lines);
      Carried(input, pos, n, done, held, lines, buf[..left]);
      done, out := done + lines, out + found;
      m, pos := left, pos + n;
    }
    Unread(input, pos, done, buf[..m]);
    Finished(re, done, buf[..m], input[pos..]);
    if NoLongLine(input) {
      AllSelected(re, input);
    }
  }
}
