/** Storage codecs (storage/codec.go): run-length booleans and string dictionaries. */
module Codecs {
  import opened Arith
  import opened Options
  import opened Seqs
  import opened RowKeys
  import opened Wire

  // ---- Run-length booleans ---------------------------------------------------------------------

  /** A row's value, absent when NULL, and its byte in the encoding. */
  type Flag = Option<bool>

  function Code(f: Flag): int {
    if f.None? then 0xFF else if f.value then 1 else 0
  }

  function FlagOf(code: int): Flag {
    if code == 0xFF then None else Some(code == 1)
  }

  datatype Run = Run(length: nat, code: int)

  function Expand(runs: seq<Run>): seq<Flag> {
    if runs == [] then []
    else Expand(runs[..|runs| - 1]) + seq(runs[|runs| - 1].length, _ => FlagOf(runs[|runs| - 1].code))
  }

  /** Runs that are never empty, so there are at most as many as rows. */
  ghost predicate RunsOk(runs: seq<Run>) {
    forall i :: 0 <= i < |runs| ==> runs[i].length > 0 && 0 <= runs[i].code < 256
  }

  lemma {:induction false} ExpandLonger(runs: seq<Run>)
    requires RunsOk(runs)
    ensures |runs| <= |Expand(runs)|
    ensures forall i :: 0 <= i < |runs| ==> runs[i].length <= |Expand(runs)|
  {
    if runs != [] {
      ExpandLonger(runs[..|runs| - 1]);
    }
  }

  /** The greedy run search of EncodeRLEBool. */
  method FindRuns(flags: seq<Flag>) returns (runs: seq<Run>)
    ensures RunsOk(runs) && Expand(runs) == flags && |runs| <= |flags|
  {
    runs := [];
    var i := 0;
    while i < |flags|
      invariant i <= |flags| && RunsOk(runs) && Expand(runs) == flags[..i]
    {
      var cur := Code(flags[i]);
      var length := 1;
      while i + length < |flags| && Code(flags[i + length]) == cur
        invariant i + length <= |flags| && length > 0
        invariant forall j :: i <= j < i + length ==> flags[j] == FlagOf(cur)
      {
        length := length + 1;
      }
      var r := Run(length, cur);
      assert (runs + [r])[..|runs|] == runs;
      assert seq(length, _ => FlagOf(cur)) == flags[i..i + length];
      assert flags[..i] + flags[i..i + length] == flags[..i + length];
      runs, i := runs + [r], i + length;
    }
    assert flags[..i] == flags;
    ExpandLonger(runs);
  }

  function PutRun(r: Run): Bytes {
    LE(r.length, WORD) + [r.code]
  }

  function ParseRun(b: Bytes): Option<(Run, Bytes)> {
    if |b| < 5 || FromLE(b, WORD) < 0 then None else Some((Run(FromLE(b, WORD), b[4]), b[5..]))
  }

  lemma {:induction false} RunReads(r: Run, rest: Bytes)
    requires r.length < TWO32
    ensures ParseRun(PutRun(r) + rest) == Some((r, rest))
  {
    var b := PutRun(r) + rest;
    Pow256Values();
    assert b == LE(r.length, WORD) + ([r.code] + rest);
    FromLEPut(r.length, WORD, [r.code] + rest);
    assert b[5..] == rest;
  }

  function RunBytes(runs: seq<Run>): Bytes {
    LE(|runs|, WORD) + Puts(PutRun, runs)
  }

  method EncodeRLEBool(flags: seq<Flag>, crc: Checksum) returns (b: Bytes, ghost runs: seq<Run>)
    requires |flags| < TWO32
    ensures RunsOk(runs) && Expand(runs) == flags && |runs| <= |flags| && b == AppendChecksum(RunBytes(runs), crc)
  {
    var rs := FindRuns(flags);
    runs := rs;
    b := AppendChecksum(RunBytes(rs), crc);
  }

  /** DecodeRLEBool: the runs, then their rows one by one. */
  method DecodeRLEBool(b: Bytes, crc: Checksum) returns (flags: Option<seq<Flag>>)
    ensures forall runs :: RunsOk(runs) && |Expand(runs)| < TWO32 && b == AppendChecksum(RunBytes(runs), crc) ==>
      flags == Some(Expand(runs))
    ensures Octets(b) && !Sealed(b, crc) ==> flags.None?
  {
    if Octets(b) {
      VerifyExactly(b, crc);
    }
    var payload := VerifyTrailing(b, crc);
    forall runs | RunsOk(runs) && |Expand(runs)| < TWO32 && b == AppendChecksum(RunBytes(runs), crc)
      ensures payload.Some? && Take(payload.value, WORD) == Some((|runs|, Puts(PutRun, runs))) &&
        Repeat(ParseRun, |runs|, Puts(PutRun, runs)) == Some((runs, []))
    {
      VerifyAppended(RunBytes(runs), crc);
      RunsRead(runs);
    }
    if payload.None? {
      return None;
    }
    var count := Take(payload.value, WORD);
    if count.None? || count.value.0 < 0 {
      return None;
    }
    var runs := ReadRecords(ParseRun, count.value.0, count.value.1);
    if runs.None? {
      return None;
    }
    var out := ExpandRuns(runs.value.0);
    return Some(out);
  }

  lemma {:induction false} RunsRead(runs: seq<Run>)
    requires RunsOk(runs) && |Expand(runs)| < TWO32
    ensures Take(RunBytes(runs), WORD) == Some((|runs|, Puts(PutRun, runs)))
    ensures Repeat(ParseRun, |runs|, Puts(PutRun, runs)) == Some((runs, []))
  {
    ExpandLonger(runs);
    Pow256Values();
    TakePut(|runs|, WORD, Puts(PutRun, runs));
    forall i, more | 0 <= i < |runs| ensures ParseRun(PutRun(runs[i]) + more) == Some((runs[i], more)) {
      RunReads(runs[i], more);
    }
    RepeatPuts(ParseRun, PutRun, runs, []);
    assert Puts(PutRun, runs) + [] == Puts(PutRun, runs);
  }

  method ExpandRuns(runs: seq<Run>) returns (flags: seq<Flag>)
    ensures flags == Expand(runs)
  {
    flags := [];
    for k := 0 to |runs|
      invariant flags == Expand(runs[..k])
    {
      var r := runs[k];
      assert runs[..k + 1][..k] == runs[..k];
      ghost var before := flags;
      for j := 0 to r.length
        invariant flags == before + seq(j, _ => FlagOf(r.code))
      {
        flags := flags + [FlagOf(r.code)];
      }
    }
    assert runs[..|runs|] == runs;
  }

  /** Encoding then decoding returns every row's value and NULL flag, and the run count is
      one a reader of that many rows accepts. */
  method RoundTripRLE(flags: seq<Flag>, crc: Checksum) returns (back: Option<seq<Flag>>)
    requires |flags| < TWO32
    ensures back == Some(flags)
  {
    var b, runs := EncodeRLEBool(flags, crc);
    back := DecodeRLEBool(b, crc);
    assert RunsOk(runs) && |Expand(runs)| < TWO32 && b == AppendChecksum(RunBytes(runs), crc);
  }

  // ---- Dictionaries -------------------------------------------------------------------------------

  /** Where each string starts in the concatenated data. */
  function Offset(keys: seq<Bytes>, i: nat): nat
    requires i <= |keys|
  {
    if i == 0 then 0 else Offset(keys, i - 1) + |keys[i - 1]|
  }

  lemma {:induction false} OffsetIsLength(keys: seq<Bytes>, i: nat)
    requires i <= |keys|
    ensures Offset(keys, i) == |Flat(keys[..i])| <= |Flat(keys)|
  {
    assert keys == keys[..i] + keys[i..];
    FlatConcat(keys[..i], keys[i..]);
    if i > 0 {
      OffsetIsLength(keys, i - 1);
      assert keys[..i][..i - 1] == keys[..i - 1];
    }
  }

  /** Entry i of the data lies between its offset and the next. */
  lemma {:induction false} EntryAt(keys: seq<Bytes>, i: nat)
    requires i < |keys|
    ensures Offset(keys, i) <= Offset(keys, i + 1) <= |Flat(keys)|
    ensures Flat(keys)[Offset(keys, i)..Offset(keys, i + 1)] == keys[i]
    ensures i + 1 == |keys| ==> Offset(keys, i + 1) == |Flat(keys)|
  {
    OffsetIsLength(keys, i);
    OffsetIsLength(keys, i + 1);
    var a, b, c := keys[..i], keys[i], keys[i + 1..];
    assert keys == a + [b] + c;
    FlatConcat(a + [b], c);
    FlatConcat(a, [b]);
    assert Flat([b]) == b by {
      assert [b][..0] == [];
    }
    assert i + 1 == |keys| ==> keys[..i + 1] == keys;
  }

  function Offsets(keys: seq<Bytes>): seq<int> {
    seq(|keys|, i requires 0 <= i < |keys| => Offset(keys, i))
  }

  function PutUint32(n: int): Bytes {
    LE(n % TWO32, WORD)
  }

  function ParseUint32(b: Bytes): Option<(int, Bytes)> {
    Take(b, WORD)
  }

  /** A dictionary as bytes: count, offsets, total length, data. */
  function DictBytes(keys: seq<Bytes>): Bytes {
    PutUint32(|keys|) + Puts(PutUint32, Offsets(keys)) + PutUint32(|Flat(keys)|) + Flat(keys)
  }

  /** What the uint32 fields can describe. */
  ghost predicate Describable(keys: seq<Bytes>) {
    |keys| < TWO32 && |Flat(keys)| < TWO32
  }

  /** DictBuilder.Marshal, without the checksum: offsets and data grow together. */
  method Marshal(keys: seq<Bytes>) returns (b: Bytes)
    ensures b == DictBytes(keys)
  {
    var offsets, data := [], [];
    for i := 0 to |keys|
      invariant offsets == Offsets(keys)[..i] && data == Flat(keys[..i])
    {
      OffsetIsLength(keys, i);
      assert keys[..i + 1][..i] == keys[..i];
      offsets, data := offsets + [|data|], data + keys[i];
    }
    assert keys[..|keys|] == keys && Offsets(keys)[..|keys|] == Offsets(keys);
    b := PutUint32(|keys|) + Puts(PutUint32, offsets) + PutUint32(|data|) + data;
  }

  datatype Parsed = Parsed(offsets: seq<int>, data: Bytes)

  function ParseDict(b: Bytes): Option<Parsed> {
    var count := Take(b, WORD);
    if count.None? || count.value.0 < 0 then None
    else
      var offsets := Repeat(ParseUint32, count.value.0, count.value.1);
      if offsets.None? then None
      else
        var total := Take(offsets.value.1, WORD);
        if total.None? || total.value.0 < 0 || |total.value.1| < total.value.0 then None
        else Some(Parsed(offsets.value.0, total.value.1[..total.value.0]))
  }

  lemma {:induction false} Uint32Reads(n: int, rest: Bytes)
    requires 0 <= n < TWO32
    ensures ParseUint32(PutUint32(n) + rest) == Some((n, rest))
  {
    Uint32Fits(n);
    TakePut(n, WORD, rest);
    assert n % TWO32 == n;
  }

  lemma {:induction false} DictReads(keys: seq<Bytes>)
    requires Describable(keys)
    ensures ParseDict(DictBytes(keys)) == Some(Parsed(Offsets(keys), Flat(keys)))
  {
    var offs, data := Offsets(keys), Flat(keys);
    var tail := PutUint32(|data|) + data;
    assert DictBytes(keys) == PutUint32(|keys|) + (Puts(PutUint32, offs) + tail);
    Uint32Reads(|keys|, Puts(PutUint32, offs) + tail);
    forall i, more | 0 <= i < |offs| ensures ParseUint32(PutUint32(offs[i]) + more) == Some((offs[i], more)) {
      OffsetIsLength(keys, i);
      Uint32Reads(offs[i], more);
    }
    RepeatPuts(ParseUint32, PutUint32, offs, tail);
    Uint32Reads(|data|, data);
    assert data[..|data|] == data;
  }

  /** The read side: strings cut out of the data on first use and kept. */
  class Dictionary {
    const offsets: seq<int>
    const data: Bytes
    var cache: seq<Bytes>
    ghost const keys: seq<Bytes>

    /** The dictionary describes these strings, and the memo holds nothing else; an
        empty slot may also mean the empty string. */
    ghost predicate Valid()
      reads this
    {
      && offsets == Offsets(keys) && data == Flat(keys) && (|cache| == 0 || |cache| == |keys|)
      && forall i :: 0 <= i < |cache| ==> cache[i] == [] || cache[i] == keys[i]
    }

    constructor (p: Parsed, ghost keys: seq<Bytes>)
      ensures this.keys == keys && offsets == p.offsets && data == p.data
      ensures p == Parsed(Offsets(keys), Flat(keys)) ==> Valid()
    {
      offsets, data, cache := p.offsets, p.data, [];
      this.keys := keys;
    }

    /** Under any sequence of calls, a code's string. */
    method Get(code: nat) returns (s: Bytes)
      requires Valid() && code < |offsets|
      modifies this
      ensures Valid() && s == keys[code]
    {
      EntryAt(keys, code);
      if code < |cache| {
        if cache[code] != [] {
          return cache[code];
        }
      } else {
        cache := seq(|offsets|, _ => []);
      }
      var start := offsets[code];
      var end := if code + 1 < |offsets| then offsets[code + 1] else |data|;
      s := data[start..end];
      cache := cache[code := s];
    }
  }

  /** UnmarshalDictionary refuses what does not check or parse; of a marshalled
      dictionary it returns every string for every code. */
  method UnmarshalDictionary(b: Bytes, crc: Checksum, ghost keys: seq<Bytes>) returns (d: Dictionary?)
    ensures d == null <==> VerifyTrailing(b, crc).None? || ParseDict(VerifyTrailing(b, crc).value).None?
    ensures d != null ==> fresh(d)
    ensures Octets(b) && !Sealed(b, crc) ==> d == null
    ensures Describable(keys) && b == AppendChecksum(DictBytes(keys), crc) ==>
      d != null && d.Valid() && d.keys == keys && |d.offsets| == |keys|
  {
    if Octets(b) {
      VerifyExactly(b, crc);
    }
    if Describable(keys) && b == AppendChecksum(DictBytes(keys), crc) {
      VerifyAppended(DictBytes(keys), crc);
      DictReads(keys);
    }
    var payload := VerifyTrailing(b, crc);
    if payload.None? {
      return null;
    }
    var p := ParseDict(payload.value);
    if p.None? {
      return null;
    }
    d := new Dictionary(p.value, keys);
  }
}
