/** The binary-content detector: a file is classified from a sample of at most
    8192 leading bytes. An empty sample is text, a NUL byte means binary, and
    otherwise the file is binary when fewer than 95% of the sampled bytes are
    printable ASCII or tab, line feed, carriage return. */
module Binary {
  import opened Wrappers

  newtype byte = x: int | 0 <= x < 256

  /** Size of the read buffer. */
  const SampleSize: nat := 8192

  /** Tab, line feed, carriage return, or a byte in 32..126. */
  predicate IsPrintable(b: byte)
  {
    b == 9 || b == 10 || b == 13 || (32 <= b <= 126)
  }

  /** Number of printable bytes in `s`. */
  function PrintableCount(s: seq<byte>): (n: nat)
    ensures n <= |s|
  {
    if s == [] then 0
    else PrintableCount(s[..|s| - 1]) + (if IsPrintable(s[|s| - 1]) then 1 else 0)
  }

  /** The exact printable ratio of a non-empty sample. */
  function PrintableRatio(s: seq<byte>): real
    requires |s| > 0
  {
    (PrintableCount(s) as real) / (|s| as real)
  }

  /** The classification rule, with the ratio as an exact fraction. */
  predicate SampleIsBinary(s: seq<byte>)
  {
    |s| > 0 && (0 in s || PrintableRatio(s) < 0.95)
  }

  /** The threshold `p / n < 0.95` is the integer test `20 p < 19 n`. */
  lemma RatioThreshold(p: nat, n: nat)
    requires n > 0
    ensures ((p as real) / (n as real) < 0.95) <==> 20 * p < 19 * n
  {
    var q, m := p as real, n as real;
    var r := q / m;
    assert r * m == q;
    BelowThreshold(q, m, r);
    assert q < 0.95 * m <==> 20 * p < 19 * n;
  }

  /** A quotient `r = q / m` with `m > 0` is below 0.95 iff `q < 0.95 m`. */
  lemma BelowThreshold(q: real, m: real, r: real)
    requires m > 0.0 && r * m == q
    ensures r < 0.95 <==> q < 0.95 * m
  {
    if r < 0.95 {
      PositiveProduct(0.95 - r, m);
      Distribute(0.95, r, m);
    } else {
      NonNegativeProduct(r - 0.95, m);
      Distribute(r, 0.95, m);
    }
  }

  lemma Distribute(a: real, b: real, c: real)
    ensures (a - b) * c == a * c - b * c
  {
  }

  lemma PositiveProduct(x: real, y: real)
    requires x > 0.0 && y > 0.0
    ensures x * y > 0.0
  {
  }

  lemma NonNegativeProduct(x: real, y: real)
    requires x >= 0.0 && y > 0.0
    ensures x * y >= 0.0
  {
  }

  /** The classification loop over the bytes actually read: `buf[:n]` of the
      source. It uses the integer form of the ratio test. */
  method ClassifySample(buf: seq<byte>) returns (binary: bool)
    ensures binary == SampleIsBinary(buf)
  {
    if |buf| == 0 {
      return false;
    }
    if 0 in buf {
      return true;
    }
    var printable := 0;
    for k := 0 to |buf|
      invariant printable == PrintableCount(buf[..k])
    {
      assert buf[..k + 1][..k] == buf[..k];
      if IsPrintable(buf[k]) {
        printable := printable + 1;
      }
    }
    assert buf[..|buf|] == buf;
    RatioThreshold(printable, |buf|);
    binary := 20 * printable < 19 * |buf|;
  }

  /** What opening and reading the working-tree file produced. `Read` holds
      the file's bytes; the first read is taken to fill the buffer as far as
      the file allows (end of file is not an error). */
  datatype FileRead = CannotOpen | ReadError | Read(data: seq<byte>)

  datatype FileError = OpenFailed | ReadFailed

  /** The bytes that land in the 8192-byte buffer. */
  function Sample(data: seq<byte>): (sample: seq<byte>)
    ensures |sample| <= SampleSize && |sample| <= |data|
    ensures sample == data[..|sample|]
    ensures |sample| == |data| || |sample| == SampleSize
  {
    if |data| <= SampleSize then data else data[..SampleSize]
  }

  /** The outcome `isBinary` reports for a file. */
  function BinaryCheck(file: FileRead): Result<bool, FileError>
  {
    match file
    case CannotOpen => Failure(OpenFailed)
    case ReadError => Failure(ReadFailed)
    case Read(data) => Success(SampleIsBinary(Sample(data)))
  }

  /** `isBinary`: open and read failures are reported, otherwise the sample is
      classified. */
  method IsBinary(file: FileRead) returns (r: Result<bool, FileError>)
    ensures r == BinaryCheck(file)
    ensures r.Failure? <==> !file.Read?
  {
    match file
    case CannotOpen =>
      r := Failure(OpenFailed);
    case ReadError =>
      r := Failure(ReadFailed);
    case Read(data) =>
      var binary := ClassifySample(Sample(data));
      r := Success(binary);
  }

  /** An empty file is text. */
  lemma EmptyIsText()
    ensures BinaryCheck(Read([])) == Success(false)
  {
  }

  /** A NUL byte within the first 8192 bytes means binary. */
  lemma NulMeansBinary(data: seq<byte>, i: nat)
    requires i < |data| && i < SampleSize && data[i] == 0
    ensures BinaryCheck(Read(data)) == Success(true)
  {
    assert Sample(data)[i] == 0;
  }

  /** Bytes after the first 8192 never influence the outcome. */
  lemma OnlySampleMatters(data: seq<byte>, more: seq<byte>)
    requires |data| >= SampleSize
    ensures BinaryCheck(Read(data + more)) == BinaryCheck(Read(data))
  {
    assert (data + more)[..SampleSize] == data[..SampleSize];
  }

  /** Count of printable bytes is additive over concatenation. */
  lemma {:induction false} PrintableCountAppend(s: seq<byte>, t: seq<byte>)
    ensures PrintableCount(s + t) == PrintableCount(s) + PrintableCount(t)
    decreases |t|
  {
    if t == [] {
      assert s + t == s;
    } else {
      var t' := t[..|t| - 1];
      PrintableCountAppend(s, t');
      assert (s + t)[..|s + t| - 1] == s + t';
    }
  }

  /** A sample counts as text exactly when it has no NUL and at least 95% of
      it is printable; at exactly 95% it is still text. */
  lemma TextIffMostlyPrintable(s: seq<byte>)
    requires |s| > 0
    ensures !SampleIsBinary(s) <==> 0 !in s && 20 * PrintableCount(s) >= 19 * |s|
  {
    RatioThreshold(PrintableCount(s), |s|);
  }

  /** Twenty bytes with one non-printable byte among nineteen printable ones
      sit exactly on the threshold and are text; two non-printable bytes
      make them binary. */
  lemma ThresholdIsInclusive(text: seq<byte>)
    requires |text| == 19 && forall i :: 0 <= i < |text| ==> 32 <= text[i] <= 126
    ensures !SampleIsBinary(text + [1])
    ensures SampleIsBinary(text[1..] + [1, 1])
  {
    assert PrintableCount(text) == 19 by {
      AllPrintable(text);
    }
    assert PrintableCount(text[1..]) == 18 by {
      AllPrintable(text[1..]);
    }
    PrintableCountAppend(text, [1]);
    assert PrintableCount([1 as byte]) == 0 by {
      assert [1 as byte][..0] == [];
    }
    PrintableCountAppend(text[1..], [1, 1]);
    assert PrintableCount([1 as byte, 1]) == 0 by {
      assert [1 as byte, 1][..1] == [1];
      assert [1 as byte][..0] == [];
    }
    TextIffMostlyPrintable(text + [1]);
    TextIffMostlyPrintable(text[1..] + [1, 1]);
  }

  /** A sample made only of printable bytes has as many printable bytes as
      bytes. */
  lemma {:induction false} AllPrintable(s: seq<byte>)
    requires forall i :: 0 <= i < |s| ==> 32 <= s[i] <= 126
    ensures PrintableCount(s) == |s|
  {
    if s != [] {
      AllPrintable(s[..|s| - 1]);
    }
  }
}
