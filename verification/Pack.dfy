/** The self-extracting pack format. */
module Pack {
  import opened Lists

  newtype byte = x: int | 0 <= x < 256

  type Bytes = seq<byte>

  datatype BundleFile = BundleFile(name: Bytes, data: Bytes)

  // ---------------------------------------------------------------- little-endian integers

  /** The low width bytes of n, least first: a conversion to a fixed-width integer drops the rest. */
  function LittleEndian(n: nat, width: nat): (r: Bytes)
    ensures |r| == width
    decreases width
  {
    if width == 0 then [] else [(n % 256) as byte] + LittleEndian(n / 256, width - 1)
  }

  function Number(s: Bytes): nat {
    if s == [] then 0 else s[0] as nat + 256 * Number(s[1..])
  }

  function Base(width: nat): nat {
    if width == 0 then 1 else 256 * Base(width - 1)
  }

  /** A number survives its bytes exactly when it fits them. */
  lemma {:induction false} NumberFits(n: nat, width: nat)
    ensures Number(LittleEndian(n, width)) == n <==> n < Base(width)
    decreases width
  {
    if width > 0 {
      NumberFits(n / 256, width - 1);
      assert LittleEndian(n, width)[1..] == LittleEndian(n / 256, width - 1);
    }
  }

  /** The k-th digit of a number to base 256, counted from the least. */
  function Digit(n: nat, k: nat): nat {
    if k == 0 then n % 256 else Digit(n / 256, k - 1)
  }

  /** The least digit comes first. */
  lemma {:induction false} ByteAt(n: nat, width: nat, k: nat)
    requires k < width
    ensures LittleEndian(n, width)[k] as nat == Digit(n, k)
    decreases k
  {
    if k > 0 { ByteAt(n / 256, width - 1, k - 1); }
  }

  lemma {:induction false} BytesOfNumber(s: Bytes)
    ensures LittleEndian(Number(s), |s|) == s && Number(s) < Base(|s|)
  {
    if s != [] {
      BytesOfNumber(s[1..]);
      assert s == [s[0]] + s[1..];
    }
  }

  const TWO16: nat := 0x1_0000
  const TWO32: nat := 0x1_0000_0000
  const TWO63: nat := 0x8000_0000_0000_0000
  const TWO64: nat := 0x1_0000_0000_0000_0000

  lemma Widths()
    ensures Base(2) == TWO16 && Base(4) == TWO32 && Base(8) == TWO64
  {
    assert Base(2) == TWO16;
    assert Base(4) == 256 * (256 * Base(2));
    assert Base(6) == 256 * (256 * Base(4));
    assert Base(8) == 256 * (256 * Base(6));
  }

  // ---------------------------------------------------------------- the bundle

  function EncodeFile(f: BundleFile): Bytes {
    LittleEndian(|f.name|, 2) + f.name + LittleEndian(|f.data|, 8) + f.data
  }

  function EncodeFiles(files: seq<BundleFile>): Bytes {
    if files == [] then [] else EncodeFile(files[0]) + EncodeFiles(files[1..])
  }

  function Encode(files: seq<BundleFile>): Bytes {
    LittleEndian(|files|, 4) + EncodeFiles(files)
  }

  datatype Problem = Short | Implausible | Overrun

  datatype Result<+T> = Ok(value: T) | Err(problem: Problem) {
    predicate IsFailure() { Err? }
    function PropagateFailure<U>(): Result<U> requires Err? { Err(problem) }
    function Extract(): T requires Ok? { value }
  }

  /** The next n bytes, and the bytes after them. */
  function Take(b: Bytes, n: nat): Result<(Bytes, Bytes)> {
    if |b| < n then Err(Short) else Ok((b[..n], b[n..]))
  }

  /** One file from the front of the bytes, and the bytes after it. */
  function DecodeFile(b: Bytes): (r: Result<(BundleFile, Bytes)>)
    ensures r.Ok? ==> |r.value.1| < |b|
  {
    var lead :- Take(b, 2);
    var name :- Take(lead.1, Number(lead.0));
    var long :- Take(name.1, 8);
    var n := Number(long.0);
    if n > |long.1| then Err(Overrun) else Ok((BundleFile(name.0, long.1[..n]), long.1[n..]))
  }

  function DecodeFiles(b: Bytes, count: nat): Result<seq<BundleFile>>
    decreases count
  {
    if count == 0 then Ok([])
    else
      var first :- DecodeFile(b);
      var rest :- DecodeFiles(first.1, count - 1);
      Ok([first.0] + rest)
  }

  const MOST_FILES: nat := 0x10_0000

  function Decode(b: Bytes): Result<seq<BundleFile>> {
    var lead :- Take(b, 4);
    if Number(lead.0) > MOST_FILES then Err(Implausible) else DecodeFiles(lead.1, Number(lead.0))
  }

  lemma Joined(a: Bytes, b: Bytes, c: Bytes, d: Bytes, e: Bytes)
    ensures a + b + c + d + e == a + (b + c + d + e) == a + (b + (c + (d + e)))
  {
    Assoc(a + b, c, d + e);
    assert a + b + c + d + e == a + b + (c + (d + e));
    assert b + c + d + e == b + (c + (d + e));
  }

  method EncodeBundle(files: seq<BundleFile>) returns (b: Bytes)
    ensures b == Encode(files)
  {
    b := LittleEndian(|files|, 4);
    var i := 0;
    while i < |files|
      invariant 0 <= i <= |files|
      invariant Encode(files) == b + EncodeFiles(files[i..])
    {
      var f := files[i];
      assert files[i..][1..] == files[i + 1..];
      Assoc(b, EncodeFile(f), EncodeFiles(files[i + 1..]));
      Joined(b, LittleEndian(|f.name|, 2), f.name, LittleEndian(|f.data|, 8), f.data);
      b := b + LittleEndian(|f.name|, 2);
      b := b + f.name;
      b := b + LittleEndian(|f.data|, 8);
      b := b + f.data;
      i := i + 1;
    }
    assert EncodeFiles([]) == [];
  }

  /** Files already read, put before what the rest decodes to. */
  function After(done: seq<BundleFile>, rest: Result<seq<BundleFile>>): Result<seq<BundleFile>> {
    if rest.Err? then rest else Ok(done + rest.value)
  }

  /** The files read so far and the files still to read are what the whole bundle decodes to. */
  predicate Pending(b: Bytes, done: seq<BundleFile>, rest: Bytes, count: nat) {
    Decode(b) == After(done, DecodeFiles(rest, count))
  }

  lemma OneMore(b: Bytes, done: seq<BundleFile>, f: BundleFile, rest: Bytes, at: Bytes, count: nat)
    requires Pending(b, done, at, count) && DecodeFile(at) == Ok((f, rest)) && count > 0
    ensures Pending(b, done + [f], rest, count - 1)
  {
    var more := DecodeFiles(rest, count - 1);
    if more.Ok? { Assoc(done, [f], more.value); }
  }

  lemma Fails(b: Bytes, done: seq<BundleFile>, at: Bytes, count: nat)
    requires Pending(b, done, at, count) && DecodeFile(at).Err? && count > 0
    ensures Decode(b) == Err(DecodeFile(at).problem)
  {
  }

  lemma NoMore(b: Bytes, done: seq<BundleFile>, rest: Bytes)
    requires Pending(b, done, rest, 0)
    ensures Decode(b) == Ok(done)
  {
    assert done + [] == done;
  }

  lemma NothingDone(r: Result<seq<BundleFile>>)
    ensures After([], r) == r
  {
    if r.Ok? { assert [] + r.value == r.value; }
  }

  method DecodeOne(b: Bytes) returns (r: Result<(BundleFile, Bytes)>)
    ensures r == DecodeFile(b)
  {
    var rest := b;
    if |rest| < 2 { return Err(Short); }
    var nameLen := Number(rest[..2]);
    rest := rest[2..];
    if |rest| < nameLen { return Err(Short); }
    var name := rest[..nameLen];
    rest := rest[nameLen..];
    if |rest| < 8 { return Err(Short); }
    var dataLen := Number(rest[..8]);
    rest := rest[8..];
    if dataLen > |rest| { return Err(Overrun); }
    return Ok((BundleFile(name, rest[..dataLen]), rest[dataLen..]));
  }

  method DecodeBundle(b: Bytes) returns (r: Result<seq<BundleFile>>)
    ensures r == Decode(b)
  {
    if |b| < 4 { return Err(Short); }
    var n := Number(b[..4]);
    if n > MOST_FILES { return Err(Implausible); }
    var files, rest, i := [], b[4..], 0;
    NothingDone(DecodeFiles(rest, n));
    ghost var left := n;
    assert Pending(b, files, rest, left);
    while i < n
      invariant 0 <= left == n - i && Pending(b, files, rest, left)
    {
      var one := DecodeOne(rest);
      if one.Err? { Fails(b, files, rest, left); return Err(one.problem); }
      OneMore(b, files, one.value.0, one.value.1, rest, left);
      files, rest := files + [one.value.0], one.value.1;
      i, left := i + 1, left - 1;
    }
    NoMore(b, files, rest);
    return Ok(files);
  }

  // ---------------------------------------------------------------- exactly the encoded prefixes decode

  predicate FileFits(f: BundleFile) {
    |f.name| < TWO16 && |f.data| < TWO64
  }

  predicate AllFit(files: seq<BundleFile>) {
    forall i | 0 <= i < |files| :: FileFits(files[i])
  }

  predicate Fits(files: seq<BundleFile>) {
    |files| <= MOST_FILES && AllFit(files)
  }

  lemma TakeExact(b: Bytes, n: nat, x: Bytes, rest: Bytes)
    ensures Take(b, n) == Ok((x, rest)) <==> |x| == n && b == x + rest
  {
  }

  lemma DecodeFileExact(b: Bytes, f: BundleFile, rest: Bytes)
    ensures DecodeFile(b) == Ok((f, rest)) <==> FileFits(f) && b == EncodeFile(f) + rest
  {
    var lead, long := LittleEndian(|f.name|, 2), LittleEndian(|f.data|, 8);
    Joined(lead, f.name, long, f.data, rest);
    TakeExact(b, 2, lead, f.name + (long + (f.data + rest)));
    TakeExact(f.name + (long + (f.data + rest)), |f.name|, f.name, long + (f.data + rest));
    TakeExact(long + (f.data + rest), 8, long, f.data + rest);
    TakeExact(f.data + rest, |f.data|, f.data, rest);
    Widths();
    NumberFits(|f.name|, 2);
    NumberFits(|f.data|, 8);
    if DecodeFile(b) == Ok((f, rest)) { DecodedFile(b); }
  }

  /** A decoded file was written before the rest, within the format's limits. */
  lemma DecodedFile(b: Bytes)
    requires DecodeFile(b).Ok?
    ensures var f, rest := DecodeFile(b).value.0, DecodeFile(b).value.1; FileFits(f) && b == EncodeFile(f) + rest
  {
    var lead := Take(b, 2).value;
    var name := Take(lead.1, Number(lead.0)).value;
    var long := Take(name.1, 8).value;
    var data := DecodeFile(b).value.0.data;
    Widths();
    BytesOfNumber(lead.0);
    BytesOfNumber(long.0);
    TakeExact(b, 2, lead.0, lead.1);
    TakeExact(lead.1, Number(lead.0), name.0, name.1);
    TakeExact(name.1, 8, long.0, long.1);
    var rest := DecodeFile(b).value.1;
    TakeExact(long.1, Number(long.0), data, rest);
    Joined(lead.0, name.0, long.0, data, rest);
  }

  /** These bytes decode to these files exactly when the files fit and the bytes begin with their codes. */
  predicate Exact(b: Bytes, count: nat, files: seq<BundleFile>) {
    DecodeFiles(b, count) == Ok(files) <==> (|files| == count && AllFit(files) && EncodeFiles(files) <= b)
  }

  lemma {:induction false} DecodeFilesExact(b: Bytes, count: nat, files: seq<BundleFile>)
    ensures Exact(b, count, files)
    decreases count
  {
    if count == 0 || files == [] {
      ExactAtEnd(b, count, files);
    } else {
      var first, more := files[0], files[1..];
      Whole([first], files);
      if FileFits(first) && EncodeFile(first) <= b {
        var rest := b[|EncodeFile(first)|..];
        Whole(EncodeFile(first), b);
        DecodeFilesExact(rest, count - 1, more);
        FileFirst(b, count, first, more, rest);
      } else {
        NotFirst(b, count, first, more);
      }
    }
  }

  lemma Whole<T>(front: seq<T>, s: seq<T>)
    requires front <= s
    ensures s == front + s[|front|..]
  {
  }

  lemma ExactAtEnd(b: Bytes, count: nat, files: seq<BundleFile>)
    requires count == 0 || files == []
    ensures Exact(b, count, files)
  {
    assert [] <= b;
  }

  lemma FileFirst(b: Bytes, count: nat, first: BundleFile, more: seq<BundleFile>, rest: Bytes)
    requires count > 0 && FileFits(first) && b == EncodeFile(first) + rest && Exact(rest, count - 1, more)
    ensures Exact(b, count, [first] + more)
  {
    assert ([first] + more)[1..] == more;
    Fit(first, more);
    DecodeFileExact(b, first, rest);
    PrefixBehind(EncodeFile(first), EncodeFiles(more), rest);
    Matched(b, count, first, more, rest);
  }

  lemma NotFirst(b: Bytes, count: nat, first: BundleFile, more: seq<BundleFile>)
    requires count > 0 && !(FileFits(first) && EncodeFile(first) <= b)
    ensures Exact(b, count, [first] + more)
  {
    assert ([first] + more)[1..] == more;
    Fit(first, more);
    if EncodeFiles([first] + more) <= b { PrefixOf(EncodeFile(first), EncodeFiles(more), b); }
    if DecodeFile(b).Ok? { DecodedFile(b); }
    Unmatched(b, count, first, more);
  }

  lemma Matched(b: Bytes, count: nat, first: BundleFile, more: seq<BundleFile>, rest: Bytes)
    requires count > 0 && DecodeFile(b) == Ok((first, rest))
    ensures DecodeFiles(b, count) == Ok([first] + more) <==> DecodeFiles(rest, count - 1) == Ok(more)
  {
    var tail := DecodeFiles(rest, count - 1);
    if tail.Ok? { assert ([first] + tail.value)[1..] == tail.value && ([first] + more)[1..] == more; }
  }

  lemma Unmatched(b: Bytes, count: nat, first: BundleFile, more: seq<BundleFile>)
    requires count > 0 && (DecodeFile(b).Ok? ==> DecodeFile(b).value.0 != first)
    ensures DecodeFiles(b, count) != Ok([first] + more)
  {
    assert ([first] + more)[0] == first;
  }

  lemma PrefixOf(a: Bytes, x: Bytes, b: Bytes)
    requires a + x <= b
    ensures a <= b
  {
    assert b[..|a|] == (a + x)[..|a|] == a;
  }

  lemma Fit(first: BundleFile, more: seq<BundleFile>)
    ensures AllFit([first] + more) <==> FileFits(first) && AllFit(more)
  {
    var files := [first] + more;
    if AllFit(files) {
      assert FileFits(files[0]);
      forall i | 0 <= i < |more| ensures FileFits(more[i]) { assert FileFits(files[i + 1]); }
    }
  }

  lemma PrefixBehind(a: Bytes, x: Bytes, y: Bytes)
    ensures a + x <= a + y <==> x <= y
  {
    if a + x <= a + y {
      assert (a + y)[..|a + x|] == a + x;
      assert y[..|x|] == (a + y)[|a|..|a| + |x|];
      assert x == (a + x)[|a|..];
    }
  }

  /** Decoding arbitrary bytes gives these files exactly when the files are within the format's
      limits and the bytes begin with their encoding. */
  lemma DecodesExactly(b: Bytes, files: seq<BundleFile>)
    ensures Decode(b) == Ok(files) <==> Fits(files) && Encode(files) <= b
  {
    Widths();
    if |b| >= 4 {
      BytesOfNumber(b[..4]);
      assert b == b[..4] + b[4..];
      DecodeFilesExact(b[4..], Number(b[..4]), files);
      if |files| < TWO32 { NumberFits(|files|, 4); }
      if Number(b[..4]) == |files| {
        PrefixBehind(b[..4], EncodeFiles(files), b[4..]);
      } else if Encode(files) <= b {
        assert b[..4] == Encode(files)[..4] == LittleEndian(|files|, 4);
      }
    }
  }

  /** The bundle decodes back to itself exactly within the format's limits. */
  lemma BundleRoundTrip(files: seq<BundleFile>)
    ensures Decode(Encode(files)) == Ok(files) <==> Fits(files)
  {
    DecodesExactly(Encode(files), files);
  }

  // ---------------------------------------------------------------- the trailer

  const MAGIC: Bytes := [67, 65, 83, 83, 69, 84, 84, 69, 80, 65, 67, 75, 0, 118, 48, 49]

  function Trailer(payload: Bytes): (r: Bytes)
    ensures |r| == |payload| + 24
  {
    payload + LittleEndian(|payload|, 8) + MAGIC
  }

  /** A 64-bit value read as a signed one. */
  function Signed(n: int): (r: int)
    ensures -0x8000_0000_0000_0000 <= r < 0x8000_0000_0000_0000
    ensures -0x8000_0000_0000_0000 <= n < 0x8000_0000_0000_0000 ==> r == n
  {
    var m := n % 0x1_0000_0000_0000_0000;
    if m < 0x8000_0000_0000_0000 then m else m - 0x1_0000_0000_0000_0000
  }

  datatype Found = Plain | Corrupt | Packed(payload: Bytes)

  /** The trailer read: size and length are signed 64-bit values and their difference wraps. */
  function ReadTrailer(r: Bytes): Found
    requires |r| < TWO63
  {
    var size := |r|;
    if size < 24 then Plain
    else
      var tail := r[size - 24..];
      if tail[8..] != MAGIC then Plain
      else
        var n := Signed(Number(tail[..8]));
        var start := Signed(size - 24 - n);
        if n < 0 || start < 0 then Corrupt else Packed(r[start..start + n])
  }

  lemma TailOf(host: Bytes, payload: Bytes)
    ensures var r := host + Trailer(payload); r[|r| - 24 - |payload|..] == Trailer(payload)
    ensures var r := host + Trailer(payload); r[..|r| - 24 - |payload|] == host
    ensures var r := host + Trailer(payload); r[|r| - 24..][..8] == LittleEndian(|payload|, 8)
  {
    var r := host + Trailer(payload);
    assert r[|r| - 24 - |payload|..] == Trailer(payload);
    TrailerParts(r, payload);
  }

  /** What the trailer says, without the wrapping: a length of 2^63 and above, or above what the file
      holds, is corrupt. */
  lemma ReadTrailerIs(r: Bytes)
    requires 24 <= |r| < TWO63
    ensures var n := Number(r[|r| - 24..][..8]);
      ReadTrailer(r) == (if r[|r| - 24..][8..] != MAGIC then Plain
                         else if n > |r| - 24 then Corrupt
                         else Packed(r[|r| - 24 - n..][..n]))
  {
    var tail := r[|r| - 24..];
    Widths();
    BytesOfNumber(tail[..8]);
    var n := Number(tail[..8]);
    LengthFits(n, |r| - 24);
    if n <= |r| - 24 { SliceTwice(r, |r| - 24 - n, n); }
  }

  /** What the signed arithmetic makes of a length field, and of what is left before it. */
  lemma LengthFits(n: nat, room: nat)
    requires n < 2 * TWO63 && room < TWO63
    ensures n <= room ==> Signed(n) == n && Signed(room - Signed(n)) == room - n
    ensures n > room ==> Signed(n) < 0 || Signed(room - Signed(n)) < 0
  {
  }

  lemma SliceTwice(r: Bytes, at: nat, n: nat)
    requires at + n <= |r|
    ensures r[at..at + n] == r[at..][..n]
  {
  }

  lemma ThreeParts(e: Bytes, x: Bytes, y: Bytes, z: Bytes)
    requires |e| == |x| + |y| + |z|
    ensures e == x + y + z <==> (e[..|x|] == x && e[|x|..][..|y|] == y && e[|x|..][|y|..] == z)
  {
    Assoc(x, y, z);
    var rest := e[|x|..];
    assert e == x + (y + z) <==> (e[..|x|] == x && rest == y + z);
    assert rest == y + z <==> (rest[..|y|] == y && rest[|y|..] == z);
  }

  lemma TrailerParts(r: Bytes, payload: Bytes)
    requires |payload| + 24 <= |r|
    ensures r[|r| - 24 - |payload|..] == Trailer(payload)
      <==> (r[|r| - 24 - |payload|..][..|payload|] == payload
            && r[|r| - 24..][..8] == LittleEndian(|payload|, 8) && r[|r| - 24..][8..] == MAGIC)
  {
    var e := r[|r| - 24 - |payload|..];
    assert e[|payload|..] == r[|r| - 24..];
    ThreeParts(e, payload, LittleEndian(|payload|, 8), MAGIC);
  }

  /** The read finds a payload exactly when the file ends with that payload's trailer. */
  lemma ReadTrailerExact(r: Bytes, payload: Bytes)
    requires |r| < TWO63
    ensures ReadTrailer(r) == Packed(payload)
      <==> |payload| + 24 <= |r| && r[|r| - 24 - |payload|..] == Trailer(payload)
  {
    if |r| >= 24 {
      ReadTrailerIs(r);
      BytesOfNumber(r[|r| - 24..][..8]);
      Widths();
      NumberFits(|payload|, 8);
      if |payload| + 24 <= |r| { TrailerParts(r, payload); }
    }
  }

  /** The magic with a length the file cannot hold, and nothing else, is reported as corrupt. */
  lemma CorruptExactly(r: Bytes)
    requires |r| < TWO63
    ensures ReadTrailer(r) == Corrupt
      <==> |r| >= 24 && r[|r| - 16..] == MAGIC && Number(r[|r| - 24..|r| - 16]) > |r| - 24
  {
    Widths();
    if |r| >= 24 {
      var tail := r[|r| - 24..];
      BytesOfNumber(tail[..8]);
      assert tail[8..] == r[|r| - 16..] && tail[..8] == r[|r| - 24..|r| - 16];
    }
  }

  /** What a packed binary was made from: itself without one trailer. */
  function Unpacked(host: Bytes): Bytes
    requires |host| < TWO63
  {
    match ReadTrailer(host)
    case Packed(payload) => ReadTrailerExact(host, payload); host[..|host| - 24 - |payload|]
    case _ => host
  }

  /** The file written for a host and a payload. Only the trailer of the host is read again, and a
      corrupt one counts as part of the host. */
  function WritePacked(host: Bytes, payload: Bytes): Bytes
    requires |host| < TWO63
  {
    var prefix :=
      if ReadTrailer(host).Packed? then
        ReadTrailerExact(host, ReadTrailer(host).payload);
        TailOf(host[..|host| - 24 - |ReadTrailer(host).payload|], ReadTrailer(host).payload);
        Widths();
        NumberFits(|ReadTrailer(host).payload|, 8);
        assert host == host[..|host| - 24 - |ReadTrailer(host).payload|] + Trailer(ReadTrailer(host).payload);
        |host| - 24 - Signed(Number(host[|host| - 24..][..8]))
      else |host|;
    host[..prefix] + Trailer(payload)
  }

  lemma WritePackedIs(host: Bytes, payload: Bytes)
    requires |host| < TWO63
    ensures WritePacked(host, payload) == Unpacked(host) + Trailer(payload)
  {
    match ReadTrailer(host)
    case Packed(p) =>
      ReadTrailerExact(host, p);
      var h := host[..|host| - 24 - |p|];
      assert host == h + Trailer(p);
      TailOf(h, p);
      Widths();
      NumberFits(|p|, 8);
    case _ => assert host[..|host|] == host;
  }

  /** A packed file yields its payload and the host it was made from. */
  lemma PackedReadsBack(host: Bytes, payload: Bytes)
    requires |host| < TWO63 && |WritePacked(host, payload)| < TWO63
    ensures ReadTrailer(WritePacked(host, payload)) == Packed(payload)
    ensures Unpacked(WritePacked(host, payload)) == Unpacked(host)
  {
    WritePackedIs(host, payload);
    var r := WritePacked(host, payload);
    assert r[|r| - 24 - |payload|..] == Trailer(payload);
    ReadTrailerExact(r, payload);
    assert r[..|r| - 24 - |payload|] == Unpacked(host);
  }

  /** Packing an already packed host re-bases: the result is the one packing the original gives. */
  lemma Rebases(host: Bytes, first: Bytes, second: Bytes)
    requires |host| < TWO63 && |WritePacked(host, first)| < TWO63
    ensures WritePacked(WritePacked(host, first), second) == WritePacked(host, second)
    ensures Unpacked(host) <= WritePacked(host, second)
  {
    PackedReadsBack(host, first);
    WritePackedIs(host, second);
    WritePackedIs(WritePacked(host, first), second);
  }

  // ---------------------------------------------------------------- from a recording to a binary and back

  const CASSETTE_NAME: Bytes := [99, 97, 115, 115, 101, 116, 116, 101, 46, 121, 97, 109, 108]

  /** The last file of that name, as the packed binary looks it up. */
  function LastNamed(files: seq<BundleFile>, name: Bytes): Result<Bytes> {
    if files == [] then Err(Short)
    else if files[|files| - 1].name == name then Ok(files[|files| - 1].data)
    else LastNamed(files[..|files| - 1], name)
  }

  /** The recording a started binary serves; none when it starts as the plain tool. */
  function Served(binary: Bytes): Result<Bytes>
    requires |binary| < TWO63
  {
    match ReadTrailer(binary)
    case Packed(payload) => (var files :- Decode(payload); LastNamed(files, CASSETTE_NAME))
    case _ => Err(Short)
  }

  /** A binary packed with a recording serves that recording byte for byte, whatever the host. */
  lemma PackedServes(host: Bytes, recording: Bytes)
    requires |host| < TWO63
    requires |WritePacked(host, Encode([BundleFile(CASSETTE_NAME, recording)]))| < TWO63
    ensures Served(WritePacked(host, Encode([BundleFile(CASSETTE_NAME, recording)]))) == Ok(recording)
  {
    var files := [BundleFile(CASSETTE_NAME, recording)];
    PackedReadsBack(host, Encode(files));
    assert FileFits(files[0]);
    BundleRoundTrip(files);
  }
}
