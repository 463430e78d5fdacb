/** The last lines of a log file, read backwards block by block. */
module LogTail {
  import opened Text

  const BLOCK_SIZE: nat := 32 * 1024
  const DEFAULT_MAX_BYTES: nat := 1048576

  // ---- the simple reader ---------------------------------------------------------

  /** The entries after one more character. */
  function Grow(lines: seq<string>, c: char): (r: seq<string>)
    requires lines != []
    ensures r != []
  {
    if c == '\n' then lines + [""] else lines[..|lines| - 1] + [lines[|lines| - 1] + [c]]
  }

  /** The entries between newlines. */
  function Split(s: string): (lines: seq<string>)
    ensures lines != []
  {
    if s == "" then [""] else Grow(Split(s[..|s| - 1]), s[|s| - 1])
  }

  /** Lines with newlines between them. */
  function Unsplit(lines: seq<string>): string {
    if |lines| == 0 then "" else if |lines| == 1 then lines[0]
    else Unsplit(lines[..|lines| - 1]) + "\n" + lines[|lines| - 1]
  }

  predicate NoNewline(s: string) { '\n' !in s }

  lemma UnsplitGrow(lines: seq<string>, c: char)
    requires lines != []
    ensures Unsplit(Grow(lines, c)) == Unsplit(lines) + [c]
  {
    var n := |lines| - 1;
    if c == '\n' {
      assert (lines + [""])[..n + 1] == lines;
      assert Unsplit(lines) + "\n" + "" == Unsplit(lines) + "\n";
    } else {
      var grown := lines[..n] + [lines[n] + [c]];
      assert grown[..n] == lines[..n];
      if n > 0 {
        assert (Unsplit(lines[..n]) + "\n") + (lines[n] + [c]) == (Unsplit(lines[..n]) + "\n" + lines[n]) + [c];
      }
    }
  }

  /** The entries are the text: put together again with newlines they give it back, and none
      has a newline in it. */
  lemma {:induction false} SplitIsText(s: string)
    ensures Unsplit(Split(s)) == s
    ensures forall i :: 0 <= i < |Split(s)| ==> NoNewline(Split(s)[i])
  {
    if s == "" {
    } else {
      var init := s[..|s| - 1];
      SplitIsText(init);
      UnsplitGrow(Split(init), s[|s| - 1]);
      assert s == init + [s[|s| - 1]];
    }
  }

  function DropBlank(lines: seq<string>): seq<string> {
    if lines != [] && Blank(lines[|lines| - 1]) then DropBlank(lines[..|lines| - 1]) else lines
  }

  function LastOf(lines: seq<string>, n: nat): seq<string> {
    if |lines| <= n then lines else lines[|lines| - n..]
  }

  /** Splitting everything, dropping blank entries at the end, keeping the last n. */
  function Tail(s: string, n: nat): seq<string> { LastOf(DropBlank(Split(s)), n) }

  function Newlines(s: string): nat {
    if s == "" then 0 else Newlines(s[..|s| - 1]) + if s[|s| - 1] == '\n' then 1 else 0
  }

  // ---- the block reader ----------------------------------------------------------------

  predicate Enough(file: string, maxLines: nat, maxBytes: nat, offset: nat)
    requires offset <= |file|
  {
    offset == 0 || |file| - offset >= maxBytes || Newlines(file[offset..]) > maxLines
  }

  /** Where reading stops when it goes on at the given offset. */
  function StopFrom(file: string, maxLines: nat, maxBytes: nat, block: nat, offset: nat): (r: nat)
    requires block > 0 && offset <= |file|
    ensures r <= offset && Enough(file, maxLines, maxBytes, r)
  {
    if Enough(file, maxLines, maxBytes, offset) then offset
    else StopFrom(file, maxLines, maxBytes, block, if offset < block then 0 else offset - block)
  }

  /** Where the file is k blocks before the offset, or its beginning. */
  function BlocksBefore(offset: nat, block: nat, k: nat): nat {
    if offset <= k * block then 0 else offset - k * block
  }

  lemma OneBlockBefore(offset: nat, block: nat, k: nat)
    ensures BlocksBefore(offset, block, k + 1) ==
              BlocksBefore(if offset < block then 0 else offset - block, block, k)
    ensures BlocksBefore(offset, block, 0) == offset
  {
    assert (k + 1) * block == k * block + block;
  }

  /** Where reading stops: at the first block boundary, counted from the end, that is the
      beginning of the file, or has the bytes or more than the lines asked for behind it. */
  lemma StopsExactly(file: string, maxLines: nat, maxBytes: nat, block: nat) returns (k: nat)
    requires block > 0
    ensures var r := StopFrom(file, maxLines, maxBytes, block, |file|);
      r == BlocksBefore(|file|, block, k) && (r == 0 || |file| - r >= maxBytes || Newlines(file[r..]) > maxLines)
    ensures forall j: nat :: j < k ==>
      var q := BlocksBefore(|file|, block, j);
      0 < q <= |file| && |file| - q < maxBytes && Newlines(file[q..]) <= maxLines
  {
    k := StopsAtOnce(file, maxLines, maxBytes, block, |file|);
    hide StopFrom, BlocksBefore, Newlines;
  }

  lemma {:induction false} StopsAtOnce(file: string, maxLines: nat, maxBytes: nat, block: nat, offset: nat)
    returns (k: nat)
    requires block > 0 && offset <= |file|
    ensures StopFrom(file, maxLines, maxBytes, block, offset) == BlocksBefore(offset, block, k)
    ensures forall j: nat :: j < k ==>
        BlocksBefore(offset, block, j) <= |file| && !Enough(file, maxLines, maxBytes, BlocksBefore(offset, block, j))
    decreases offset
  {
    OneBlockBefore(offset, block, 0);
    if Enough(file, maxLines, maxBytes, offset) {
      k := 0;
    } else {
      var next := if offset < block then 0 else offset - block;
      var k' := StopsAtOnce(file, maxLines, maxBytes, block, next);
      OneBlockBefore(offset, block, k');
      hide Enough, BlocksBefore;
      k := k' + 1;
      forall j: nat | j < k
        ensures BlocksBefore(offset, block, j) <= |file|
        ensures !Enough(file, maxLines, maxBytes, BlocksBefore(offset, block, j))
      {
        if j > 0 { OneBlockBefore(offset, block, j - 1); }
      }
    }
  }

  /** Chunks are collected from the end of the file towards its beginning. */
  function Join(chunks: seq<string>): string {
    if chunks == [] then "" else chunks[|chunks| - 1] + Join(chunks[..|chunks| - 1])
  }

  lemma {:induction false} NewlinesConcat(a: string, b: string)
    ensures Newlines(a + b) == Newlines(a) + Newlines(b)
  {
    if b == "" {
      assert a + b == a;
    } else {
      assert (a + b)[..|a + b| - 1] == a + b[..|b| - 1];
      NewlinesConcat(a, b[..|b| - 1]);
    }
  }

  method CountNewlines(b: string) returns (n: nat)
    ensures n == Newlines(b)
  {
    n := 0;
    var i := 0;
    while i < |b|
      invariant i <= |b| && n == Newlines(b[..i])
    {
      assert b[..i + 1][..i] == b[..i];
      if b[i] == '\n' { n := n + 1; }
      i := i + 1;
    }
    assert b[..i] == b;
  }

  method ReadChunks(file: string, maxLines: nat, maxBytes: nat, block: nat) returns (chunks: seq<string>)
    requires block > 0
    ensures Join(chunks) == file[StopFrom(file, maxLines, maxBytes, block, |file|)..]
  {
    var offset, readBytes, newlines := |file|, 0, 0;
    chunks := [];
    assert file[offset..] == "";
    while offset > 0 && readBytes < maxBytes && newlines <= maxLines
      invariant 0 <= offset <= |file| && readBytes == |file| - offset
      invariant newlines == Newlines(file[offset..]) && Join(chunks) == file[offset..]
      invariant StopFrom(file, maxLines, maxBytes, block, offset) == StopFrom(file, maxLines, maxBytes, block, |file|)
    {
      var step := if offset < block then offset else block;
      var b := file[offset - step..offset];
      OneMoreChunk(file, offset, step, chunks, b);
      chunks := chunks + [b];
      var n := CountNewlines(b);
      offset, readBytes, newlines := offset - step, readBytes + |b|, newlines + n;
    }
  }

  lemma OneMoreChunk(file: string, offset: nat, step: nat, chunks: seq<string>, b: string)
    requires step <= offset <= |file| && b == file[offset - step..offset]
    requires Join(chunks) == file[offset..]
    ensures Join(chunks + [b]) == file[offset - step..]
    ensures Newlines(file[offset - step..]) == Newlines(b) + Newlines(file[offset..])
  {
    assert file[offset - step..] == b + file[offset..];
    assert (chunks + [b])[..|chunks|] == chunks;
    NewlinesConcat(b, file[offset..]);
  }

  method JoinChunks(chunks: seq<string>) returns (buf: string)
    ensures buf == Join(chunks)
  {
    buf := "";
    var i := |chunks|;
    assert chunks[..i] == chunks && "" + Join(chunks) == Join(chunks);
    while i > 0
      invariant 0 <= i <= |chunks| && buf + Join(chunks[..i]) == Join(chunks)
    {
      i := i - 1;
      assert chunks[..i + 1][..i] == chunks[..i];
      assert buf + (chunks[i] + Join(chunks[..i])) == (buf + chunks[i]) + Join(chunks[..i]);
      buf := buf + chunks[i];
    }
    assert buf + "" == buf;
  }

  method ReadLastLines(file: string, maxLines: int, maxBytes: int) returns (lines: seq<string>)
    ensures maxLines <= 0 ==> lines == []
    ensures maxLines > 0 ==>
      var cap := if maxBytes <= 0 then DEFAULT_MAX_BYTES else maxBytes;
      var offset := StopFrom(file, maxLines, cap, BLOCK_SIZE, |file|);
      && lines == Tail(file[offset..], maxLines)
      && (lines == [] <==> Blank(file[offset..]))
      && (lines != [] ==> exists a, b :: ShowsEnd(file[offset..], maxLines, lines, a, b))
      && (Uncapped(file, maxLines, offset) && BlankEnd(file) <= 1 ==> lines == Tail(file, maxLines))
  {
    if maxLines <= 0 {
      return [];
    }
    hide StopFrom, Split, DropBlank, Blank;
    var cap := if maxBytes <= 0 then DEFAULT_MAX_BYTES else maxBytes;
    if |file| == 0 {
      NothingToShow(file, maxLines);
      return [];
    }
    ghost var offset := StopFrom(file, maxLines, cap, BLOCK_SIZE, |file|);
    if Uncapped(file, maxLines, offset) && BlankEnd(file) <= 1 {
      BlocksEqualWhole(file, maxLines, offset);
    }
    var chunks := ReadChunks(file, maxLines, cap, BLOCK_SIZE);
    var buf := JoinChunks(chunks);
    lines := LastVisible(buf, maxLines);
    TailIsEnd(buf, maxLines);
  }

  method LastVisible(buf: string, n: nat) returns (lines: seq<string>)
    ensures lines == Tail(buf, n)
  {
    hide Split, Blank;
    var all := Split(buf);
    while |all| > 0 && Blank(all[|all| - 1])
      invariant DropBlank(all) == DropBlank(Split(buf))
    {
      all := all[..|all| - 1];
    }
    lines := if |all| <= n then all else all[|all| - n..];
  }

  lemma NothingToShow(file: string, n: nat)
    requires file == ""
    ensures forall offset :: 0 <= offset <= |file| ==> Tail(file[offset..], n) == []
    ensures Tail(file, n) == []
  {
    assert Blank("");
    assert [""][..0] == [];
    assert file[0..] == file;
  }

  // ---- when the two readers agree --------------------------------------------------------

  /** Two lists of entries, the last entry of the first joined with the first of the second. */
  function Glue(x: seq<string>, y: seq<string>): (r: seq<string>)
    requires x != [] && y != []
    ensures |r| == |x| + |y| - 1
  {
    x[..|x| - 1] + [x[|x| - 1] + y[0]] + y[1..]
  }

  lemma GlueGrow(x: seq<string>, y: seq<string>, c: char)
    requires x != [] && y != []
    ensures Grow(Glue(x, y), c) == Glue(x, Grow(y, c))
  {
    if |y| == 1 {
      assert x[|x| - 1] + (y[0] + [c]) == (x[|x| - 1] + y[0]) + [c];
    }
  }

  /** A line that crosses the boundary is the only one a split at the boundary cuts. */
  lemma {:induction false} SplitConcat(a: string, b: string)
    ensures Split(a + b) == Glue(Split(a), Split(b))
  {
    var x := Split(a);
    if b == "" {
      assert a + b == a && x[|x| - 1] + "" == x[|x| - 1];
    } else {
      assert (a + b)[..|a + b| - 1] == a + b[..|b| - 1];
      SplitConcat(a, b[..|b| - 1]);
      GlueGrow(x, Split(b[..|b| - 1]), b[|b| - 1]);
      hide Glue, Grow;
    }
  }

  lemma {:induction false} SplitCounts(s: string)
    ensures |Split(s)| == Newlines(s) + 1
  {
    if s != "" { SplitCounts(s[..|s| - 1]); }
  }

  /** The last entry is empty exactly at the beginning of a line. */
  lemma LastEntryEmpty(s: string)
    ensures Split(s)[|Split(s)| - 1] == "" <==> s == "" || s[|s| - 1] == '\n'
  {}

  lemma BlankConcat(a: string, b: string)
    ensures Blank(a + b) <==> Blank(a) && Blank(b)
  {
    hide Blank;
    BlankMeansSpaces(a);
    BlankMeansSpaces(b);
    BlankMeansSpaces(a + b);
    assert forall i :: 0 <= i < |a| ==> (a + b)[i] == a[i];
    assert forall i :: 0 <= i < |b| ==> (a + b)[|a| + i] == b[i];
  }

  /** Dropping only removes a blank end. */
  lemma {:induction false} DropIsPrefix(lines: seq<string>)
    ensures DropBlank(lines) <= lines
    ensures DropBlank(lines) != [] ==> !Blank(DropBlank(lines)[|DropBlank(lines)| - 1])
    ensures forall i :: |DropBlank(lines)| <= i < |lines| ==> Blank(lines[i])
  {
    hide Blank;
    if lines != [] && Blank(lines[|lines| - 1]) { DropIsPrefix(lines[..|lines| - 1]); }
  }

  lemma {:induction false} DropStops(lines: seq<string>, k: nat)
    requires k <= |lines| && forall i :: k <= i < |lines| ==> Blank(lines[i])
    requires k > 0 ==> !Blank(lines[k - 1])
    ensures DropBlank(lines) == lines[..k]
  {
    hide Blank;
    if k < |lines| {
      DropStops(lines[..|lines| - 1], k);
      assert lines[..|lines| - 1][..k] == lines[..k];
    } else {
      assert lines[..k] == lines;
    }
  }

  /** The entries that a suffix alone shows. */
  function Kept(s: string): nat { |DropBlank(Split(s))| }

  /** With a visible entry in the suffix, the whole text drops the same blank entries. */
  lemma DropConcat(a: string, b: string)
    requires Kept(b) > 0
    ensures DropBlank(Split(a + b)) == Glue(Split(a), DropBlank(Split(b)))
  {
    SplitConcat(a, b);
    hide Split;
    GlueDrop(Split(a), Split(b));
  }

  lemma GlueDrop(x: seq<string>, y: seq<string>)
    requires x != [] && DropBlank(y) != []
    ensures y != [] && DropBlank(Glue(x, y)) == Glue(x, DropBlank(y))
  {
    hide DropBlank, Blank;
    DropIsPrefix(y);
    var n, k, all := |x| - 1, |DropBlank(y)|, Glue(x, y);
    BlankConcat(x[n], y[0]);
    assert forall i :: n < i < |all| ==> all[i] == y[i - n];
    DropStops(all, n + k);
    assert DropBlank(y) == y[..k];
  }

  /** Exactly when reading only a suffix shows the same lines as reading everything: the
      suffix shows more entries than asked for, or just as many and begins a line, or there
      is nothing to show at all. */
  lemma TailExactly(file: string, offset: nat, n: nat)
    requires 0 < offset <= |file| && n > 0
    ensures Tail(file[offset..], n) == Tail(file, n) <==>
      || Kept(file[offset..]) > n
      || (Kept(file[offset..]) == n && file[offset - 1] == '\n')
      || Blank(file)
  {
    var a, b := file[..offset], file[offset..];
    assert file == a + b;
    BlankFile(file);
    if Kept(b) > 0 {
      DropConcat(a, b);
      LastEntryEmpty(a);
      hide Split, DropBlank, Blank;
      Compare(Split(a), DropBlank(Split(b)), n);
    }
  }

  lemma Compare(x: seq<string>, d: seq<string>, n: nat)
    requires x != [] && d != [] && n > 0
    requires |x| == 1 ==> x[0] != ""
    ensures LastOf(d, n) == LastOf(Glue(x, d), n) <==> |d| > n || (|d| == n && x[|x| - 1] == "")
  {
    var m, all := |x| - 1, Glue(x, d);
    assert all[m..] == [x[m] + d[0]] + d[1..];
    assert |x[m] + d[0]| == |x[m]| + |d[0]|;
    if |d| > n {
      assert LastOf(d, n) == LastOf(all, n);
    } else if |d| == n {
      assert LastOf(all, n) == all[m..];
      if x[m] == "" {
        assert x[m] + d[0] == d[0];
        assert LastOf(all, n) == d;
      }
    } else if m == 0 {
      assert LastOf(all, n)[0] == x[0] + d[0];
    }
  }

  /** A file shows nothing exactly when it is blank. */
  lemma BlankFile(file: string)
    ensures Kept(file) == 0 <==> Blank(file)
  {
    hide Split, DropBlank, Blank;
    DropIsPrefix(Split(file));
    EntriesBlank(file);
    if Blank(file) { DropStops(Split(file), 0); }
  }

  lemma GrowBlank(y: seq<string>, c: char)
    requires y != []
    ensures AllBlank(Grow(y, c)) <==> AllBlank(y) && Blank([c])
  {
    hide Blank;
    BlankMeansSpaces("");
    BlankMeansSpaces([c]);
    var g := Grow(y, c);
    assert forall i :: 0 <= i < |y| - 1 ==> g[i] == y[i];
    if c == '\n' {
      assert g[|y| - 1] == y[|y| - 1] && g[|y|] == "";
    } else {
      BlankConcat(y[|y| - 1], [c]);
      assert g[|y| - 1] == y[|y| - 1] + [c];
    }
  }

  predicate AllBlank(lines: seq<string>) { forall i :: 0 <= i < |lines| ==> Blank(lines[i]) }

  lemma {:induction false} EntriesBlank(s: string)
    ensures Blank(s) <==> AllBlank(Split(s))
  {
    hide Blank;
    BlankMeansSpaces("");
    if s != "" {
      var init, c := s[..|s| - 1], s[|s| - 1];
      EntriesBlank(init);
      assert s == init + [c];
      BlankConcat(init, [c]);
      GrowBlank(Split(init), c);
    }
  }

  // ---- what is shown -----------------------------------------------------------------------

  /** The lines are the piece of the text from a to b.  It begins a line, and is the end of the
      text but for white space; it has the number of lines asked for, or begins the text. */
  ghost predicate ShowsEnd(s: string, n: nat, lines: seq<string>, a: nat, b: nat) {
    && a <= b <= |s| && Unsplit(lines) == s[a..b]
    && (a == 0 || s[a - 1] == '\n')
    && (b == |s| || s[b] == '\n') && Blank(s[b..])
    && 0 < |lines| <= n && (|lines| == n || a == 0)
    && (forall i :: 0 <= i < |lines| ==> NoNewline(lines[i])) && !Blank(lines[|lines| - 1])
  }

  lemma {:induction false} UnsplitConcat(x: seq<string>, y: seq<string>)
    requires x != [] && y != []
    ensures Unsplit(x + y) == Unsplit(x) + "\n" + Unsplit(y)
  {
    var n := |y| - 1;
    assert (x + y)[..|x| + n] == x + y[..n];
    if n == 0 {
      assert x + y[..0] == x;
    } else {
      UnsplitConcat(x, y[..n]);
      assert (Unsplit(x) + "\n" + Unsplit(y[..n])) + "\n" + y[n] == Unsplit(x) + "\n" + (Unsplit(y[..n]) + "\n" + y[n]);
    }
  }

  /** Where the last lines of a list are in the text the list stands for. */
  lemma LastPiece(d: seq<string>, n: nat) returns (a: nat)
    requires d != [] && n > 0
    ensures a <= |Unsplit(d)| && Unsplit(LastOf(d, n)) == Unsplit(d)[a..]
    ensures a == 0 || Unsplit(d)[a - 1] == '\n'
    ensures |LastOf(d, n)| == n || a == 0
  {
    if |d| <= n {
      a := 0;
    } else {
      var e, t := d[..|d| - n], d[|d| - n..];
      assert d == e + t;
      UnsplitConcat(e, t);
      a := |Unsplit(e)| + 1;
    }
  }

  lemma {:induction false} BlankLines(lines: seq<string>)
    requires AllBlank(lines)
    ensures Blank(Unsplit(lines))
  {
    hide Blank;
    BlankMeansSpaces("");
    BlankMeansSpaces("\n");
    if |lines| > 1 {
      BlankLines(lines[..|lines| - 1]);
      BlankConcat(Unsplit(lines[..|lines| - 1]), "\n");
      BlankConcat(Unsplit(lines[..|lines| - 1]) + "\n", lines[|lines| - 1]);
    }
  }

  /** What is left of a text without the blank lines at its end. */
  lemma DroppedPiece(s: string)
    requires DropBlank(Split(s)) != []
    ensures var t := Unsplit(DropBlank(Split(s)));
      t <= s && (|t| == |s| || s[|t|] == '\n') && Blank(s[|t|..])
  {
    var x := Split(s);
    SplitIsText(s);
    DropIsPrefix(x);
    hide Split, DropBlank, Blank, Unsplit;
    BlankMeansSpaces("");
    BlankMeansSpaces("\n");
    var d := DropBlank(x);
    var t := Unsplit(d);
    if d != x {
      var r := x[|d|..];
      assert x == d + r;
      UnsplitConcat(d, r);
      BlankLines(r);
      BlankConcat("\n", Unsplit(r));
      assert s[|t|..] == "\n" + Unsplit(r);
    } else {
      assert s[|t|..] == "";
    }
  }

  /** The tail is the end of the text, line by line; there is none exactly if the text is
      blank. */
  lemma TailIsEnd(s: string, n: nat)
    requires n > 0
    ensures Tail(s, n) == [] <==> Blank(s)
    ensures !Blank(s) ==> exists a, b :: ShowsEnd(s, n, Tail(s, n), a, b)
  {
    BlankFile(s);
    if !Blank(s) {
      var d := DropBlank(Split(s));
      SplitIsText(s);
      DropIsPrefix(Split(s));
      DroppedPiece(s);
      hide Split, DropBlank, Blank, Unsplit, ShowsEnd;
      LastAreShown(s, d, n);
    }
  }

  lemma LastAreShown(s: string, d: seq<string>, n: nat)
    requires d != [] && n > 0
    requires var t := Unsplit(d); t <= s && (|t| == |s| || s[|t|] == '\n') && Blank(s[|t|..])
    requires (forall i :: 0 <= i < |d| ==> NoNewline(d[i])) && !Blank(d[|d| - 1])
    ensures exists a, b :: ShowsEnd(s, n, LastOf(d, n), a, b)
  {
    hide Unsplit, Blank, NoNewline;
    var a := LastPiece(d, n);
    var b := |Unsplit(d)|;
    assert Unsplit(d)[a..] == s[a..b];
    assert ShowsEnd(s, n, LastOf(d, n), a, b);
  }

  // ---- the two readers -------------------------------------------------------------------

  /** Blank entries at the end; 1 for a text that ends with a newline after a visible line. */
  function BlankEnd(s: string): int { |Split(s)| - Kept(s) }

  /** The cap does not bind: reading stopped at the beginning or for having enough lines. */
  predicate Uncapped(file: string, n: nat, offset: nat)
    requires offset <= |file|
  {
    offset == 0 || Newlines(file[offset..]) > n
  }

  lemma CapNotReached(file: string, n: nat, cap: nat, block: nat)
    requires block > 0 && |file| <= cap
    ensures Uncapped(file, n, StopFrom(file, n, cap, block, |file|))
  {}

  lemma GlueBlank(x: seq<string>, y: seq<string>)
    requires x != [] && y != [] && DropBlank(y) == []
    ensures |DropBlank(Glue(x, y))| <= |x|
  {
    hide DropBlank, Blank;
    var all := Glue(x, y);
    DropIsPrefix(y);
    DropIsPrefix(all);
    assert forall i :: |x| <= i < |all| ==> all[i] == y[i - |x| + 1];
  }

  lemma BlankEndOfSuffix(a: string, b: string)
    ensures Kept(b) > 0 ==> BlankEnd(a + b) == BlankEnd(b)
    ensures Kept(b) == 0 ==> BlankEnd(a + b) >= |Split(b)| - 1
  {
    SplitConcat(a, b);
    if Kept(b) > 0 {
      DropConcat(a, b);
      hide Split, DropBlank;
    } else {
      GlueBlank(Split(a), Split(b));
      hide Split, DropBlank;
    }
  }

  /** The block reader agrees with the simple one on every file whose last line is visible,
      wherever the block boundaries fall, if the byte cap does not bind. */
  lemma BlocksEqualWhole(file: string, n: nat, offset: nat)
    requires n > 0 && offset <= |file| && Uncapped(file, n, offset) && BlankEnd(file) <= 1
    ensures Tail(file[offset..], n) == Tail(file, n)
  {
    if offset == 0 {
      assert file[0..] == file;
    } else {
      var a, b := file[..offset], file[offset..];
      assert file == a + b;
      SplitCounts(b);
      BlankEndOfSuffix(a, b);
      hide Tail, BlankEnd, Kept, Blank;
      KeptMore(file, a, b, n);
      TailExactly(file, offset, n);
    }
  }

  lemma KeptMore(file: string, a: string, b: string, n: nat)
    requires n > 0 && |Split(b)| >= n + 2 && BlankEnd(file) <= 1
    requires Kept(b) > 0 ==> BlankEnd(file) == BlankEnd(b)
    requires Kept(b) == 0 ==> BlankEnd(file) >= |Split(b)| - 1
    ensures Kept(b) > n
  {}

  function Repeat(c: char, k: nat): (s: string)
    ensures |s| == k
  {
    seq(k, i requires 0 <= i < k => c)
  }

  lemma {:induction false} ManyNewlines(k: nat)
    ensures Newlines(Repeat('\n', k)) == k && Blank(Repeat('\n', k))
  {
    hide Blank;
    if k > 0 {
      ManyNewlines(k - 1);
      assert Repeat('\n', k)[..k - 1] == Repeat('\n', k - 1);
    }
    BlankMeansSpaces(Repeat('\n', k));
  }

  /** It does not agree on files that end with many blank lines: one block of newlines at the
      end hides the whole log. */
  lemma BlankBlockHidesTheLog(log: string, n: nat, cap: nat, block: nat)
    requires 0 < n < block && cap > 0 && !Blank(log)
    ensures var file := log + Repeat('\n', block);
      && Tail(file[StopFrom(file, n, cap, block, |file|)..], n) == []
      && Tail(file, n) != []
  {
    var tail := Repeat('\n', block);
    var file := log + tail;
    ManyNewlines(block);
    BlankFile(tail);
    BlankConcat(log, tail);
    BlankFile(file);
    assert file[|log|..] == tail && file[|file|..] == "";
    BlankMeansSpaces("");
    hide Blank, Split, DropBlank;
    assert StopFrom(file, n, cap, block, |file| - block) == |log|;
    assert StopFrom(file, n, cap, block, |file|) == |log|;
  }
}
