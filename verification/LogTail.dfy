/** The last lines of a file, read backwards in chunks and never more than a byte budget allows. */
module LogTail {
  import opened Common

  type Byte = b: int | 0 <= b < 256
  type Line = seq<Byte>

  const NEWLINE: Byte := 10

  /** `data.count(b"\n")` */
  function Count(data: seq<Byte>): nat {
    if data == [] then 0 else (if data[0] == NEWLINE then 1 else 0) + Count(data[1..])
  }

  /** Where the line that holds position `k` ends. */
  function Break(data: seq<Byte>, k: nat): (r: nat)
    requires k <= |data|
    ensures k <= r <= |data| && (r < |data| ==> data[r] == NEWLINE)
    ensures forall j :: k <= j < r ==> data[j] != NEWLINE
    decreases |data| - k
  {
    if k == |data| || data[k] == NEWLINE then k else Break(data, k + 1)
  }

  function FirstLine(data: seq<Byte>): Line { data[..Break(data, 0)] }

  /** What follows the first line and its newline. */
  function Rest(data: seq<Byte>): seq<Byte> { After(data, Break(data, 0)) }

  function After(data: seq<Byte>, k: nat): seq<Byte> { if k < |data| then data[k + 1..] else [] }

  /** `splitlines()`, with newline the only separator. */
  function Lines(data: seq<Byte>): seq<Line>
    decreases |data|
  {
    if data == [] then [] else [FirstLine(data)] + Lines(Rest(data))
  }

  /** The lines below position `k`, without the one that position cuts into. */
  function WholeLines(file: seq<Byte>, k: nat): seq<Line>
    requires k <= |file|
  {
    if k == 0 then Lines(file) else Below(Lines(file[k..]))
  }

  /** Every line ended by a newline. */
  function Ended(lines: seq<Line>): seq<Byte> { if lines == [] then [] else lines[0] + [NEWLINE] + Ended(lines[1..]) }

  /** The lines are those of the file: put together again they give it back, up to a newline at its end. */
  lemma {:induction false} LinesAreTheFile(data: seq<Byte>)
    ensures forall line :: line in Lines(data) ==> NEWLINE !in line
    ensures Ended(Lines(data)) == if data == [] || data[|data| - 1] == NEWLINE then data else data + [NEWLINE]
    decreases |data|
  {
    if data != [] {
      var (line, rest) := (FirstLine(data), Rest(data));
      LinesAreTheFile(rest);
      assert Lines(data) == [line] + Lines(rest);
      if |line| < |data| {
        assert data == line + [NEWLINE] + rest;
        assert rest != [] ==> rest[|rest| - 1] == data[|data| - 1];
      } else {
        assert data == line;
      }
    }
  }

  function LastOf(lines: seq<Line>, n: nat): seq<Line> { if n < |lines| then lines[|lines| - n..] else lines }

  predicate Suffix(s: seq<Line>, all: seq<Line>) { |s| <= |all| && all[|all| - |s|..] == s }

  lemma {:induction false} CountSplits(a: seq<Byte>, b: seq<Byte>)
    ensures Count(a + b) == Count(a) + Count(b)
  {
    if a == [] {
      assert a + b == b;
    } else {
      assert (a + b)[1..] == a[1..] + b;
      CountSplits(a[1..], b);
    }
  }

  lemma {:induction false} NoNewlines(line: Line)
    requires NEWLINE !in line
    ensures Count(line) == 0
  {
    if line != [] {
      NoNewlines(line[1..]);
    }
  }

  /** There are at least as many lines as newlines. */
  lemma {:induction false} EnoughLines(data: seq<Byte>)
    ensures Count(data) <= |Lines(data)|
    decreases |data|
  {
    if data != [] {
      var line := FirstLine(data);
      NoNewlines(line);
      if |line| < |data| {
        assert data == line + ([NEWLINE] + Rest(data));
        CountSplits(line, [NEWLINE] + Rest(data));
        CountSplits([NEWLINE], Rest(data));
        assert Count([NEWLINE]) == 1 + Count([]);
        EnoughLines(Rest(data));
      } else {
        assert data == line;
      }
    }
  }

  predicate BreaksAt(data: seq<Byte>, r: nat) {
    r <= |data| && (r < |data| ==> data[r] == NEWLINE) && NEWLINE !in data[..r]
  }

  lemma BreakIs(data: seq<Byte>, r: nat)
    requires BreaksAt(data, r)
    ensures Break(data, 0) == r
  {
  }

  lemma BreakAcross(a: seq<Byte>, b: seq<Byte>)
    ensures Break(a + b, 0) == if Break(a, 0) < |a| then Break(a, 0) else |a| + Break(b, 0)
  {
    if Break(a, 0) < |a| {
      assert (a + b)[..Break(a, 0)] == a[..Break(a, 0)];
      BreakIs(a + b, Break(a, 0));
    } else {
      assert (a + b)[..|a| + Break(b, 0)] == a + b[..Break(b, 0)];
      BreakIs(a + b, |a| + Break(b, 0));
    }
  }

  lemma AfterInFirst(a: seq<Byte>, b: seq<Byte>, k: nat)
    requires k < |a|
    ensures After(a + b, k) == After(a, k) + b
  {
  }

  lemma AfterInSecond(a: seq<Byte>, b: seq<Byte>, k: nat)
    ensures After(a + b, |a| + k) == After(b, k)
  {
  }

  lemma RestAcross(a: seq<Byte>, b: seq<Byte>)
    ensures Rest(a + b) == if Break(a, 0) < |a| then Rest(a) + b else Rest(b)
  {
    BreakAcross(a, b);
    if Break(a, 0) < |a| {
      AfterInFirst(a, b, Break(a, 0));
    } else {
      AfterInSecond(a, b, Break(b, 0));
    }
  }

  function Below(lines: seq<Line>): seq<Line> { if lines == [] then [] else lines[1..] }

  lemma SuffixAfterOne(s: seq<Line>, line: Line, tail: seq<Line>)
    requires Suffix(s, tail)
    ensures Suffix(s, [line] + tail)
  {
  }

  /** Wherever a file is cut, the lines below the cut, less the first, are the file's last lines. */
  lemma {:induction false} LinesBelowACut(above: seq<Byte>, data: seq<Byte>)
    ensures Suffix(Below(Lines(data)), Lines(above + data))
    decreases |above|
  {
    if above == [] {
      assert above + data == data;
    } else {
      RestAcross(above, data);
      if Break(above, 0) < |above| {
        LinesBelowACut(Rest(above), data);
      } else {
        assert Below(Lines(data)) == Lines(Rest(data));
      }
      SuffixAfterOne(Below(Lines(data)), FirstLine(above + data), Lines(Rest(above + data)));
    }
  }

  lemma LastOfSuffix(s: seq<Line>, lines: seq<Line>, n: nat)
    requires Suffix(s, lines)
    ensures Suffix(LastOf(s, n), lines)
    ensures n <= |s| ==> LastOf(s, n) == LastOf(lines, n)
  {
  }

  /** `tail_lines`; `read` counts the bytes requested. */
  method TailLines(file: seq<Byte>, maxLines: nat, maxBytes: int, chunkSize: nat)
    returns (lines: seq<Line>, truncated: bool, ghost read: nat)
    requires maxLines >= 1 && chunkSize >= 1
    ensures Suffix(lines, Lines(file)) && |lines| <= maxLines
    ensures !truncated ==> lines == LastOf(Lines(file), maxLines)
    ensures truncated ==> maxBytes <= read < |file| && Count(file[|file| - read..]) <= maxLines
    ensures read == 0 || read < maxBytes + chunkSize
    ensures read <= |file| && lines == LastOf(WholeLines(file, |file| - read), maxLines)
  {
    var data: seq<Byte> := [];
    var pos := |file|;
    truncated := false;
    while pos > 0
      invariant 0 <= pos <= |file| && data == file[pos..] && !truncated
      invariant |data| == 0 || |data| < maxBytes + chunkSize
      decreases pos
    {
      if Count(data) > maxLines {
        break;
      }
      if |file| - pos >= maxBytes {
        truncated := true;
        break;
      }
      var readSize := Min(chunkSize, pos);
      assert file[pos - readSize..] == file[pos - readSize..pos] + file[pos..];
      pos := pos - readSize;
      data := file[pos..pos + readSize] + data;
    }
    read := |data|;
    lines := Lines(data);
    if pos > 0 && lines != [] {
      lines := lines[1..];
    }
    assert lines == WholeLines(file, |file| - read);
    WholeLinesAreLast(file, pos, maxLines);
    lines := LastOf(lines, maxLines);
  }

  /** The lines below a cut are last lines of the file, and enough of them if the cut left enough newlines. */
  lemma WholeLinesAreLast(file: seq<Byte>, k: nat, n: nat)
    requires k <= |file|
    ensures var lines := LastOf(WholeLines(file, k), n);
            && Suffix(lines, Lines(file)) && |lines| <= n
            && (k == 0 || Count(file[k..]) > n ==> lines == LastOf(Lines(file), n))
  {
    assert file == file[..k] + file[k..];
    EnoughLines(file[k..]);
    LinesBelowACut(file[..k], file[k..]);
    LastOfSuffix(WholeLines(file, k), Lines(file), n);
  }
}
