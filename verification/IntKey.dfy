/** The integer-key path of hash aggregation (exec/agg_intkey.go): GROUP BY strings are
    renamed to dense global codes packed into one 64-bit key, with a fallback to string
    keys once a code no longer fits. */
module IntKeys {
  import opened Arith
  import opened Batches
  import opened RowKeys
  import opened Aggregates
  import opened AggregateMeanings
  import opened HashAggregates
  import JoinTables
  import opened RowStores

  // ---- Packing ---------------------------------------------------------------------------

  function Pow2(e: nat): (p: nat)
    ensures p > 0
  {
    JoinTables.Pow2(e)
  }

  /** Bitwise or. */
  function Or(a: nat, b: nat): nat
    decreases a + b
  {
    if a == 0 then b else if b == 0 then a
    else 2 * Or(a / 2, b / 2) + if a % 2 == 1 || b % 2 == 1 then 1 else 0
  }

  /** Or-ing a shifted code above the bits in use adds it. */
  lemma {:induction false} OrAbove(a: nat, c: nat, s: nat)
    requires a < Pow2(s)
    ensures c * Pow2(s) >= 0 && Or(a, c * Pow2(s)) == a + c * Pow2(s)
  {
    if s > 0 && a > 0 && c > 0 {
      var half := c * Pow2(s - 1);
      assert c * Pow2(s) == 2 * half;
      OrAbove(a / 2, c, s - 1);
      assert half > 0;
    }
  }

  /** Two to the shift of column i, which starts i widths up. */
  function Base(i: nat, width: nat): (p: nat)
    ensures p > 0
  {
    Pow2(Off(i, width))
  }

  lemma {:induction false} BaseStep(i: nat, width: nat)
    ensures Base(i + 1, width) == Pow2(width) * Base(i, width)
  {
    JoinTables.Pow2Sum(width, Off(i, width));
  }

  /** The key of a row's global codes, column 0 in the lowest bits. */
  function Pack(codes: seq<nat>, width: nat): nat {
    if codes == [] then 0 else codes[0] + Pow2(width) * Pack(codes[1..], width)
  }

  ghost predicate Fit(codes: seq<nat>, width: nat) {
    forall i :: 0 <= i < |codes| ==> codes[i] < Pow2(width)
  }

  lemma {:induction false} PackBelow(codes: seq<nat>, width: nat)
    requires Fit(codes, width)
    ensures Pack(codes, width) < Base(|codes|, width)
  {
    if codes != [] {
      PackBelow(codes[1..], width);
      BaseStep(|codes| - 1, width);
      ScaleBelow(Pack(codes[1..], width), Base(|codes| - 1, width), Pow2(width));
    }
  }

  lemma {:induction false} ScaleBelow(c: nat, w: nat, p: nat)
    requires c < w
    ensures p * c + p <= p * w
  {
    MulLe(c + 1, w, p);
    assert (c + 1) * p == p * c + p;
  }

  /** A key splits at any column into the codes below and the codes above. */
  lemma {:induction false} PackSplit(codes: seq<nat>, width: nat, i: nat)
    requires i <= |codes|
    ensures Pack(codes, width) == Pack(codes[..i], width) + Base(i, width) * Pack(codes[i..], width)
  {
    if i > 0 {
      PackSplit(codes[1..], width, i - 1);
      assert codes[..i][1..] == codes[1..][..i - 1] && codes[1..][i - 1..] == codes[i..];
      BaseStep(i - 1, width);
      Distribute(Pow2(width), Pack(codes[1..][..i - 1], width), Base(i - 1, width), Pack(codes[i..], width));
    } else {
      assert codes[0..] == codes && codes[..0] == [];
    }
  }

  lemma {:induction false} Distribute(w: nat, a: nat, b: nat, q: nat)
    ensures w * (a + b * q) == w * a + (w * b) * q
  {
  }

  /** Column i of a key: shifted down and masked to its width. */
  function Unpack(key: nat, width: nat, i: nat): nat {
    key / Base(i, width) % Pow2(width)
  }

  /** Unpacking returns every code: packing is injective on codes that fit. */
  lemma {:induction false} UnpackPack(codes: seq<nat>, width: nat, i: nat)
    requires Fit(codes, width) && i < |codes|
    ensures Unpack(Pack(codes, width), width, i) == codes[i]
  {
    PackSplit(codes, width, i);
    PackBelow(codes[..i], width);
    Digit(Pack(codes, width), Pack(codes[..i], width), Base(i, width), Pack(codes[i..], width));
    Digit(Pack(codes[i..], width), codes[i], Pow2(width), Pack(codes[i..][1..], width));
  }

  lemma {:induction false} PackSnoc(codes: seq<nat>, width: nat, i: nat)
    requires i < |codes|
    ensures Pack(codes[..i + 1], width) == Pack(codes[..i], width) + codes[i] * Base(i, width)
  {
    PackSplit(codes[..i + 1], width, i);
    assert codes[..i + 1][..i] == codes[..i] && codes[..i + 1][i..] == [codes[i]];
    assert Pack([codes[i]], width) == codes[i] by {
      assert [codes[i]][1..] == [];
    }
  }

  /** The packing loop: key |= code << shift, column by column. */
  method BuildIntKey(codes: seq<nat>, width: nat) returns (key: nat)
    requires Fit(codes, width)
    ensures key == Pack(codes, width)
  {
    key := 0;
    for i := 0 to |codes|
      invariant key == Pack(codes[..i], width)
    {
      PackBelow(codes[..i], width);
      OrAbove(key, codes[i], Off(i, width));
      PackSnoc(codes, width, i);
      key := Or(key, codes[i] * Base(i, width));
    }
    assert codes[..|codes|] == codes;
  }

  // ---- Global dictionaries --------------------------------------------------------------------

  /** A row group's dictionary; remap tables are cached by its identity. */
  class Dictionary {
    const strings: seq<string>

    constructor (strings: seq<string>)
      ensures this.strings == strings
    {
      this.strings := strings;
    }
  }

  /** The global dictionary of one column: strings in order of first occurrence, and
      each one's uint32 code. */
  datatype Builder = Builder(keys: seq<string>, index: map<string, nat>) {

    ghost predicate Ok() {
      && NoRepeats(keys) && (forall s :: s in index ==> s in keys)
      && forall i :: 0 <= i < |keys| ==> keys[i] in index && index[keys[i]] == CodeAt(i)
    }

    function Add(s: string): (Builder, nat) {
      if s in index then (this, index[s])
      else (Builder(keys + [s], index[s := CodeAt(|keys|)]), CodeAt(|keys|))
    }
  }

  /** A code for s, exact as long as the dictionary has no more than 2^32 strings. */
  ghost predicate CodeOk(keys: seq<string>, code: nat, s: string) {
    |keys| <= TWO32 ==> code < |keys| && keys[code] == s
  }

  /** The uint32 a position is cut to. */
  function CodeAt(i: nat): (code: nat)
    ensures i < TWO32 ==> code == i
  {
    i % TWO32
  }

  lemma {:induction false} AddKeeps(b: Builder, s: string)
    requires b.Ok()
    ensures b.Add(s).0.Ok() && b.keys <= b.Add(s).0.keys
  {
    if s !in b.index {
      var b' := b.Add(s).0;
      forall i | 0 <= i < |b'.keys| ensures b'.keys[i] in b'.index && b'.index[b'.keys[i]] == CodeAt(i) {
        assert i < |b.keys| ==> b'.keys[i] == b.keys[i];
      }
    }
  }

  lemma {:induction false} AddCode(b: Builder, s: string)
    requires b.Ok()
    ensures CodeOk(b.Add(s).0.keys, b.Add(s).1, s)
  {
    if s in b.index {
      var i :| 0 <= i < |b.keys| && b.keys[i] == s;
      assert b.index[b.keys[i]] == CodeAt(i);
    }
  }

  ghost predicate RemapOk(remap: seq<nat>, strings: seq<string>, keys: seq<string>) {
    |remap| == |strings| && forall i :: 0 <= i < |remap| ==> CodeOk(keys, remap[i], strings[i])
  }

  lemma {:induction false} RemapGrows(remap: seq<nat>, strings: seq<string>, keys: seq<string>, keys': seq<string>)
    requires RemapOk(remap, strings, keys) && keys <= keys'
    ensures RemapOk(remap, strings, keys')
  {
    forall i | 0 <= i < |remap| ensures CodeOk(keys', remap[i], strings[i]) {
      assert CodeOk(keys, remap[i], strings[i]);
    }
  }

  ghost predicate RemapsOk(remaps: map<Dictionary, seq<nat>>, b: Builder) {
    b.Ok() && forall d :: d in remaps ==> RemapOk(remaps[d], d.strings, b.keys)
  }

  /** getOrBuildRemap: assigns global codes to a dictionary seen for the first time. */
  method GetOrBuildRemap(remaps: map<Dictionary, seq<nat>>, b: Builder, dict: Dictionary)
    returns (remap: seq<nat>, remaps': map<Dictionary, seq<nat>>, b': Builder)
    requires RemapsOk(remaps, b)
    ensures RemapsOk(remaps', b') && b.keys <= b'.keys && RemapOk(remap, dict.strings, b'.keys)
  {
    if dict in remaps {
      return remaps[dict], remaps, b;
    }
    remap, b' := [], b;
    for i := 0 to |dict.strings|
      invariant b'.Ok() && b.keys <= b'.keys && RemapOk(remap, dict.strings[..i], b'.keys)
    {
      var s := dict.strings[i];
      AddKeeps(b', s);
      AddCode(b', s);
      var (b'', code) := b'.Add(s);
      RemapGrows(remap, dict.strings[..i], b'.keys, b''.keys);
      remap, b' := remap + [code], b'';
      assert dict.strings[..i + 1] == dict.strings[..i] + [s];
    }
    assert dict.strings[..|dict.strings|] == dict.strings;
    remaps' := remaps[dict := remap];
    forall d | d in remaps' ensures RemapOk(remaps'[d], d.strings, b'.keys) {
      if d != dict {
        RemapGrows(remaps[d], d.strings, b.keys, b'.keys);
      }
    }
  }

  // ---- Decoding keys ----------------------------------------------------------------------------

  /** Each code names a string of its column's dictionary. */
  ghost predicate InRange(codes: seq<nat>, dicts: seq<seq<string>>) {
    |codes| == |dicts| && forall i :: 0 <= i < |codes| ==> codes[i] < |dicts[i]|
  }

  function Decoded(codes: seq<nat>, dicts: seq<seq<string>>): seq<Cell>
    requires |codes| == |dicts|
  {
    seq(|codes|, i requires 0 <= i < |codes| => if codes[i] < |dicts[i]| then Text(dicts[i][codes[i]]) else Null)
  }

  function CodesOf(key: nat, width: nat, n: nat): seq<nat> {
    seq(n, i requires 0 <= i < n => Unpack(key, width, i))
  }

  lemma {:induction false} CodesOfPack(codes: seq<nat>, width: nat)
    requires Fit(codes, width)
    ensures CodesOf(Pack(codes, width), width, |codes|) == codes
  {
    forall i | 0 <= i < |codes| ensures Unpack(Pack(codes, width), width, i) == codes[i] {
      UnpackPack(codes, width, i);
    }
  }

  ghost predicate NoRepeatsAll(dicts: seq<seq<string>>) {
    forall i :: 0 <= i < |dicts| ==> NoRepeats(dicts[i])
  }

  lemma {:induction false} DecodedInjective(a: seq<nat>, b: seq<nat>, dicts: seq<seq<string>>)
    requires InRange(a, dicts) && InRange(b, dicts) && NoRepeatsAll(dicts) && Decoded(a, dicts) == Decoded(b, dicts)
    ensures a == b
  {
    forall i | 0 <= i < |a| ensures a[i] == b[i] {
      assert Decoded(a, dicts)[i] == Decoded(b, dicts)[i];
      assert NoRepeats(dicts[i]);
    }
  }

  /** Every column's dictionary only gained strings. */
  ghost predicate Extends(dicts: seq<seq<string>>, dicts': seq<seq<string>>) {
    |dicts| == |dicts'| && forall i :: 0 <= i < |dicts| ==> dicts[i] <= dicts'[i]
  }

  /** A group under an integer key: the key packs in-range codes, and the sample is what
      they stand for. */
  ghost predicate KeyOk(key: int, g: Group, dicts: seq<seq<string>>, width: nat) {
    && key >= 0
    && var codes := CodesOf(key, width, |dicts|);
       InRange(codes, dicts) && Fit(codes, width) && key == Pack(codes, width) && g.sample == Decoded(codes, dicts)
  }

  ghost predicate KeysOk(m: map<int, Group>, dicts: seq<seq<string>>, width: nat) {
    forall k :: k in m ==> KeyOk(k, m[k], dicts, width)
  }

  lemma {:induction false} KeysGrow(m: map<int, Group>, dicts: seq<seq<string>>, dicts': seq<seq<string>>, width: nat)
    requires KeysOk(m, dicts, width) && Extends(dicts, dicts')
    ensures KeysOk(m, dicts', width)
  {
    forall k | k in m ensures KeyOk(k, m[k], dicts', width) {
      assert KeyOk(k, m[k], dicts, width);
      var codes := CodesOf(k, width, |dicts|);
      assert Decoded(codes, dicts') == Decoded(codes, dicts);
    }
  }

  ghost predicate HasNull(cells: seq<Cell>) {
    exists i :: 0 <= i < |cells| && cells[i].Null?
  }

  ghost predicate NullOnly(m: Groups) {
    forall s :: s in m ==> HasNull(m[s].sample)
  }

  // ---- The two maps together ----------------------------------------------------------------------

  /** The string-keyed and integer-keyed groups together are the groups of the reference,
      each in exactly one of the two maps; `names` gives an integer key its string key. */
  ghost predicate Rep<G>(hg: map<Bytes, G>, ig: map<int, G>, names: map<int, Bytes>, back: map<Bytes, int>,
                         spec: map<Bytes, G>) {
    && (forall s :: s in hg ==> s in spec && spec[s] == hg[s] && s !in back)
    && (forall s :: s in back ==>
        back[s] in ig && back[s] in names && names[back[s]] == s && s in spec && spec[s] == ig[back[s]])
    && (forall k :: k in ig ==> k in names && names[k] in back && back[names[k]] == k)
    && (forall s :: s in spec ==> s in hg || s in back)
  }

  lemma {:induction false} RepString<G>(hg: map<Bytes, G>, ig: map<int, G>, names: map<int, Bytes>,
                                        back: map<Bytes, int>, spec: map<Bytes, G>, s: Bytes, g: G)
    requires Rep(hg, ig, names, back, spec) && s !in back
    ensures Rep(hg[s := g], ig, names, back, spec[s := g])
  {
  }

  lemma {:induction false} RepInt<G>(hg: map<Bytes, G>, ig: map<int, G>, names: map<int, Bytes>, back: map<Bytes, int>,
                                     spec: map<Bytes, G>, s: Bytes, k: int, g: G)
    requires Rep(hg, ig, names, back, spec) && s !in hg
    requires if k in ig then names[k] == s else s !in back
    ensures Rep(hg, ig[k := g], names[k := s], back[s := k], spec[s := g])
  {
  }

  /** Materialising one integer-keyed group moves it to the string-keyed map. */
  lemma {:induction false} RepMove<G>(hg: map<Bytes, G>, ig: map<int, G>, names: map<int, Bytes>, back: map<Bytes, int>,
                                      spec: map<Bytes, G>, k: int)
    requires Rep(hg, ig, names, back, spec) && k in ig
    ensures k in names && names[k] !in hg
    ensures Rep(hg[names[k] := ig[k]], ig - {k}, names, back - {names[k]}, spec)
  {
    assert back[names[k]] == k;
  }

  lemma {:induction false} RepDone<G>(hg: map<Bytes, G>, ig: map<int, G>, names: map<int, Bytes>,
                                      back: map<Bytes, int>, spec: map<Bytes, G>)
    requires Rep(hg, ig, names, back, spec) && ig.Keys == {}
    ensures hg == spec
  {
    forall s | s in spec ensures s in hg {
    }
    assert hg.Keys == spec.Keys;
  }

  /** An integer key's string key is that of its group's sample. */
  ghost predicate Named(ig: map<int, Group>, names: map<int, Bytes>) {
    forall k :: k in ig ==> k in names && names[k] == Encode(ig[k].sample)
  }

  /** A row without NULLs: its packed key is new exactly when its group is. */
  lemma {:induction false} PackedKey(kinds: seq<Kind>, hg: Groups, ig: map<int, Group>, names: map<int, Bytes>,
                                     back: map<Bytes, int>,
                                     spec: Groups, row: InRow, codes: seq<nat>, dicts: seq<seq<string>>, width: nat)
    requires Rep(hg, ig, names, back, spec) && SoundGroups(kinds, spec) && RowOk(row) && Named(ig, names)
    requires KeysOk(ig, dicts, width) && NullOnly(hg) && NoRepeatsAll(dicts)
    requires InRange(codes, dicts) && Fit(codes, width) && row.group == Decoded(codes, dicts)
    ensures var k := Pack(codes, width);
      && KeyOf(row) !in hg
      && (k in ig ==> ig[k].sample == row.group && names[k] == KeyOf(row))
      && (k !in ig ==> KeyOf(row) !in back)
  {
    var k, s := Pack(codes, width), KeyOf(row);
    CodesOfPack(codes, width);
    if s in hg {
      EncodeInjective(hg[s].sample, row.group);
    }
    if k in ig {
      assert KeyOk(k, ig[k], dicts, width);
    } else if s in back {
      var l := back[s];
      assert KeyOk(l, ig[l], dicts, width) && spec[s] == ig[l];
      EncodeInjective(ig[l].sample, row.group);
      DecodedInjective(CodesOf(l, width, |dicts|), codes, dicts);
    }
  }

  /** A row with a NULL never shares a key with an integer-keyed group. */
  lemma {:induction false} NullKey(kinds: seq<Kind>, hg: Groups, ig: map<int, Group>, names: map<int, Bytes>,
                                   back: map<Bytes, int>,
                                   spec: Groups, row: InRow, dicts: seq<seq<string>>, width: nat)
    requires Rep(hg, ig, names, back, spec) && SoundGroups(kinds, spec) && RowOk(row) && Named(ig, names)
    requires KeysOk(ig, dicts, width) && HasNull(row.group)
    ensures KeyOf(row) !in back
  {
    var s := KeyOf(row);
    if s in back {
      var l := back[s];
      assert KeyOk(l, ig[l], dicts, width) && spec[s] == ig[l];
      EncodeInjective(ig[l].sample, row.group);
    }
  }

  // ---- Batches --------------------------------------------------------------------------------------

  /** A dictionary-encoded GROUP BY column. */
  datatype KeyColumn = KeyColumn(dict: Dictionary, codes: seq<nat>, nulls: seq<bool>)

  /** GROUP BY columns, the aggregates' inputs by physical row, and the selected rows. */
  datatype KeyBatch = KeyBatch(cols: seq<KeyColumn>, inputs: seq<seq<Cell>>, rows: seq<nat>) {

    ghost predicate Valid(n: nat) {
      && |cols| == n && (forall i :: 0 <= i < |rows| ==> rows[i] < |inputs|)
      && (forall c :: 0 <= c < n ==> ColumnOk(c))
      && forall r :: 0 <= r < |inputs| ==> AllStorable(inputs[r])
    }

    ghost predicate ColumnOk(c: nat)
      requires c < |cols|
    {
      && |cols[c].codes| == |cols[c].nulls| == |inputs|
      && (forall r :: 0 <= r < |inputs| && !cols[c].nulls[r] ==> cols[c].codes[r] < |cols[c].dict.strings|)
      && forall i :: 0 <= i < |cols[c].dict.strings| ==> |cols[c].dict.strings[i]| < TWO32
    }

    /** What row r contributes to aggregation. */
    function RowAt(r: nat): InRow
      requires Valid(|cols|) && r < |inputs|
    {
      InRow(seq(|cols|, c requires 0 <= c < |cols| && ColumnOk(c) => CellAt(c, r)), inputs[r])
    }

    function CellAt(c: nat, r: nat): Cell
      requires c < |cols| && ColumnOk(c) && r < |inputs|
    {
      if cols[c].nulls[r] then Null else Text(cols[c].dict.strings[cols[c].codes[r]])
    }

    function Rows(): (out: seq<InRow>)
      requires Valid(|cols|)
      ensures |out| == |rows|
    {
      seq(|rows|, i requires 0 <= i < |rows| => RowAt(rows[i]))
    }
  }

  /** Bits a column: as many as eight columns, four or two leave room for. */
  function WidthFor(n: nat): (w: nat)
    ensures w <= 32
  {
    if n <= 2 then 32 else if n <= 4 then 16 else 8
  }

  /** A packed key of up to eight columns is a uint64. */
  lemma {:induction false} PackedFits(codes: seq<nat>)
    requires |codes| <= 8 && Fit(codes, WidthFor(|codes|))
    ensures Pack(codes, WidthFor(|codes|)) < TWO64
  {
    var n, w := |codes|, WidthFor(|codes|);
    PackBelow(codes, w);
    OffIsProduct(n, w);
    assert n * w <= 64;
    JoinTables.Pow2Of64();
    JoinTables.Pow2Order(64, n * w);
  }

  function KeysOfAll(dicts: seq<Builder>): seq<seq<string>> {
    seq(|dicts|, i requires 0 <= i < |dicts| => dicts[i].keys)
  }

  ghost predicate DictsOk(dicts: seq<Builder>, remaps: seq<map<Dictionary, seq<nat>>>) {
    |dicts| == |remaps| && forall i :: 0 <= i < |dicts| ==> RemapsOk(remaps[i], dicts[i])
  }

  /** Remap tables for the columns of one batch. */
  ghost predicate TablesOk(tables: seq<seq<nat>>, cols: seq<KeyColumn>, dicts: seq<Builder>) {
    |tables| <= |cols| == |dicts| && forall c :: 0 <= c < |tables| ==>
        RemapOk(tables[c], cols[c].dict.strings, dicts[c].keys)
  }

  /** getOrBuildRemap for every column of a batch. */
  method MapColumns(cols: seq<KeyColumn>, dicts: seq<Builder>, remaps: seq<map<Dictionary, seq<nat>>>)
    returns (tables: seq<seq<nat>>, dicts': seq<Builder>, remaps': seq<map<Dictionary, seq<nat>>>)
    requires DictsOk(dicts, remaps) && |cols| == |dicts|
    ensures DictsOk(dicts', remaps') && |dicts'| == |dicts| && Extends(KeysOfAll(dicts), KeysOfAll(dicts'))
    ensures |tables| == |cols| && TablesOk(tables, cols, dicts')
  {
    tables, dicts', remaps' := [], dicts, remaps;
    for c := 0 to |cols|
      invariant DictsOk(dicts', remaps') && |dicts'| == |dicts| && |tables| == c && TablesOk(tables, cols, dicts')
      invariant forall i :: 0 <= i < |dicts| ==> dicts[i].keys <= dicts'[i].keys
      invariant forall i :: c <= i < |dicts| ==> dicts'[i] == dicts[i]
    {
      var table, r, b := GetOrBuildRemap(remaps'[c], dicts'[c], cols[c].dict);
      tables, dicts', remaps' := tables + [table], dicts'[c := b], remaps'[c := r];
    }
  }

  /** codeOverflows: some column's dictionary has outgrown its bits. */
  method CodeOverflows(dicts: seq<Builder>, width: nat) returns (over: bool)
    ensures over <==> exists i :: 0 <= i < |dicts| && |dicts[i].keys| >= Pow2(width)
  {
    for c := 0 to |dicts|
      invariant forall i :: 0 <= i < c ==> |dicts[i].keys| < Pow2(width)
    {
      if |dicts[c].keys| >= Pow2(width) {
        return true;
      }
    }
    return false;
  }

  lemma {:induction false} Pow2At32(w: nat)
    requires w <= 32
    ensures Pow2(w) <= TWO32
  {
    JoinTables.Pow2Sum(w, 32 - w);
    Pow2Is32();
    ScaleBelow(0, Pow2(32 - w), Pow2(w));
  }

  lemma {:induction false} Pow2Is32()
    ensures Pow2(32) == TWO32
  {
    assert Pow2(8) == 256;
    JoinTables.Pow2Sum(8, 8);
    JoinTables.Pow2Sum(16, 16);
  }

  /** The global codes of a row without NULLs: in range, fitting, and standing for it. */
  method RowCodes(batch: KeyBatch, tables: seq<seq<nat>>, ghost dicts: seq<Builder>, ghost width: nat, r: nat)
    returns (codes: seq<nat>)
    requires batch.Valid(|batch.cols|) && r < |batch.inputs| && width <= 32
    requires |tables| == |batch.cols| && TablesOk(tables, batch.cols, dicts)
    requires forall i :: 0 <= i < |dicts| ==> |dicts[i].keys| < Pow2(width)
    requires !HasNull(batch.RowAt(r).group)
    ensures InRange(codes, KeysOfAll(dicts)) && Fit(codes, width)
    ensures batch.RowAt(r).group == Decoded(codes, KeysOfAll(dicts))
  {
    Pow2At32(width);
    codes := [];
    for c := 0 to |batch.cols|
      invariant |codes| == c
      invariant forall i :: 0 <= i < c ==>
        codes[i] < |dicts[i].keys| && Text(dicts[i].keys[codes[i]]) == batch.RowAt(r).group[i]
    {
      assert batch.ColumnOk(c) && !batch.RowAt(r).group[c].Null?;
      var local := batch.cols[c].codes[r];
      assert RemapOk(tables[c], batch.cols[c].dict.strings, dicts[c].keys);
      assert CodeOk(dicts[c].keys, tables[c][local], batch.cols[c].dict.strings[local]);
      codes := codes + [tables[c][local]];
    }
  }

  method RowHasNull(batch: KeyBatch, r: nat) returns (hasNull: bool)
    requires batch.Valid(|batch.cols|) && r < |batch.inputs|
    ensures hasNull <==> HasNull(batch.RowAt(r).group)
  {
    for c := 0 to |batch.cols|
      invariant forall i :: 0 <= i < c ==> !batch.RowAt(r).group[i].Null?
    {
      assert batch.ColumnOk(c);
      if batch.cols[c].nulls[r] {
        assert batch.RowAt(r).group[c].Null?;
        return true;
      }
    }
    return false;
  }

  lemma {:induction false} RowAtOk(batch: KeyBatch, r: nat)
    requires batch.Valid(|batch.cols|) && r < |batch.inputs|
    ensures RowOk(batch.RowAt(r))
  {
    forall c | 0 <= c < |batch.cols| ensures Storable(batch.RowAt(r).group[c]) {
      assert batch.ColumnOk(c);
    }
  }

  lemma {:induction false} DictsApart(dicts: seq<Builder>, remaps: seq<map<Dictionary, seq<nat>>>)
    requires DictsOk(dicts, remaps)
    ensures NoRepeatsAll(KeysOfAll(dicts))
  {
    forall i | 0 <= i < |dicts| ensures NoRepeats(KeysOfAll(dicts)[i]) {
      assert RemapsOk(remaps[i], dicts[i]);
    }
  }

  /** The state of the integer path while it is enabled. */
  ghost predicate Tracking(kinds: seq<Kind>, hg: Groups, ig: map<int, Group>, names: map<int, Bytes>,
                           back: map<Bytes, int>, spec: Groups, keys: seq<seq<string>>, width: nat)
  {
    var tracking :=
      && Rep(hg, ig, names, back, spec) && SoundGroups(kinds, spec) && Named(ig, names)
      && KeysOk(ig, keys, width) && NullOnly(hg) && NoRepeatsAll(keys);
    tracking
  }

  /** One row folded into its group under an integer key. */
  function FoldAt(kinds: seq<Kind>, ig: map<int, Group>, k: int, row: InRow): Group {
    Group(row.group, FoldRow(kinds, if k in ig && |ig[k].accs| == |kinds| then ig[k].accs else InitAccs(kinds), row))
  }

  /** It is the group the reference folds the row into. */
  lemma {:induction false} FoldsAlike(kinds: seq<Kind>, hg: Groups, ig: map<int, Group>, names: map<int, Bytes>,
                                      back: map<Bytes, int>, spec: Groups, row: InRow, k: int)
    requires Rep(hg, ig, names, back, spec) && KeyOf(row) !in hg && SoundGroups(kinds, spec)
    requires if k in ig then names[k] == KeyOf(row) && ig[k].sample == row.group else KeyOf(row) !in back
    ensures Step(kinds, spec, row) == spec[KeyOf(row) := FoldAt(kinds, ig, k, row)]
    ensures k in ig ==> |ig[k].accs| == |kinds|
  {
    var s := KeyOf(row);
    if k in ig {
      assert back[s] == k && spec[s] == ig[k];
    } else {
      assert s !in spec;
    }
  }

  lemma {:induction false} TrackInt(kinds: seq<Kind>, hg: Groups, ig: map<int, Group>, names: map<int, Bytes>,
                                    back: map<Bytes, int>,
                                    spec: Groups, keys: seq<seq<string>>, width: nat, row: InRow, codes: seq<nat>,
                                        k: int,
                                    s: Bytes, g: Group)
    requires Tracking(kinds, hg, ig, names, back, spec, keys, width) && RowOk(row)
    requires InRange(codes, keys) && Fit(codes, width) && row.group == Decoded(codes, keys) && k == Pack(codes, width)
    requires s == KeyOf(row) && g == FoldAt(kinds, ig, k, row)
    ensures Tracking(kinds, hg, ig[k := g], names[k := s], back[s := k], Step(kinds, spec, row), keys, width)
    ensures k in ig ==> ig[k].sample == row.group && |ig[k].accs| == |kinds|
  {
    PackedKey(kinds, hg, ig, names, back, spec, row, codes, keys, width);
    FoldsAlike(kinds, hg, ig, names, back, spec, row, k);
    RepInt(hg, ig, names, back, spec, s, k, g);
    StepSound(kinds, spec, row);
    KeyAdded(ig, names, keys, width, codes, s, g);
  }

  lemma {:induction false} KeyAdded(ig: map<int, Group>, names: map<int, Bytes>, keys: seq<seq<string>>, width: nat,
                                    codes: seq<nat>, s: Bytes, g: Group)
    requires KeysOk(ig, keys, width) && Named(ig, names) && s == Encode(g.sample)
    requires InRange(codes, keys) && Fit(codes, width) && g.sample == Decoded(codes, keys)
    ensures KeysOk(ig[Pack(codes, width) := g], keys, width)
    ensures Named(ig[Pack(codes, width) := g], names[Pack(codes, width) := s])
  {
    CodesOfPack(codes, width);
    assert KeyOk(Pack(codes, width), g, keys, width);
  }

  lemma {:induction false} TrackNull(kinds: seq<Kind>, hg: Groups, ig: map<int, Group>, names: map<int, Bytes>,
                                     back: map<Bytes, int>,
                                     spec: Groups, keys: seq<seq<string>>, width: nat, row: InRow)
    requires Tracking(kinds, hg, ig, names, back, spec, keys, width) && RowOk(row) && HasNull(row.group)
    ensures Tracking(kinds, Step(kinds, hg, row), ig, names, back, Step(kinds, spec, row), keys, width)
  {
    NullKey(kinds, hg, ig, names, back, spec, row, keys, width);
    var s := KeyOf(row);
    assert s in spec <==> s in hg;
    assert Step(kinds, hg, row) == hg[s := Step(kinds, spec, row)[s]];
    RepString(hg, ig, names, back, spec, s, Step(kinds, spec, row)[s]);
    StepSound(kinds, spec, row);
  }

  lemma {:induction false} TrackGrow(kinds: seq<Kind>, hg: Groups, ig: map<int, Group>, names: map<int, Bytes>,
                                     back: map<Bytes, int>,
                                     spec: Groups, keys: seq<seq<string>>, keys': seq<seq<string>>, width: nat)
    requires Tracking(kinds, hg, ig, names, back, spec, keys, width) && Extends(keys, keys') && NoRepeatsAll(keys')
    ensures Tracking(kinds, hg, ig, names, back, spec, keys', width)
  {
    KeysGrow(ig, keys, keys', width);
  }

  ghost predicate ListedInts(keys: seq<int>, m: map<int, Group>) {
    NoRepeats(keys) && (forall i :: 0 <= i < |keys| ==> keys[i] in m) && (forall k :: k in m ==> k in keys)
  }

  lemma {:induction false} ListedIntsAdd(keys: seq<int>, m: map<int, Group>, k: int, g: Group)
    requires ListedInts(keys, m)
    ensures ListedInts(if k in m then keys else keys + [k], m[k := g])
  {
  }

  /** `folds[i]` is the fold of the first i rows. */
  ghost predicate FoldsAt(folds: seq<Groups>, kinds: seq<Kind>, rows: seq<InRow>, i: nat)
    requires i < |rows| < |folds|
  {
    var next := folds[i + 1] == Step(kinds, folds[i], rows[i]);
    next
  }

  ghost function Folds(kinds: seq<Kind>, m: Groups, rows: seq<InRow>): (folds: seq<Groups>)
    ensures |folds| == |rows| + 1 && folds[0] == m && folds[|rows|] == FoldGroups(kinds, m, rows)
    ensures forall i :: 0 <= i < |rows| ==> FoldsAt(folds, kinds, rows, i)
  {
    var folds := seq(|rows| + 1, i requires 0 <= i <= |rows| => FoldGroups(kinds, m, rows[..i]));
    assert forall i :: 0 <= i < |rows| ==> FoldsAt(folds, kinds, rows, i) by {
      forall i | 0 <= i < |rows| ensures FoldsAt(folds, kinds, rows, i) {
        assert rows[..i + 1] == rows[..i] + [rows[i]];
        FoldSnoc(kinds, m, rows[..i], rows[i]);
      }
    }
    assert rows[..|rows|] == rows;
    folds
  }

  class IntKeyAggregate {
    const h: HashAggregate
    const n: nat
    const width: nat
    var enabled: bool
    var dicts: seq<Builder>
    var remaps: seq<map<Dictionary, seq<nat>>>
    var intKeys: seq<int>
    var intGroups: map<int, Group>
    ghost var names: map<int, Bytes>
    ghost var back: map<Bytes, int>
    ghost var spec: Groups        // the groups of all rows seen so far

    ghost predicate Valid()
      reads this, h
    {
      && h.Valid() && |dicts| == n && width <= 32
      && (enabled ==> Packing()) && (!enabled ==> h.groups == spec)
    }

    /** What holds while rows go by packed keys. */
    ghost predicate Packing()
      reads this, h
    {
      var packing :=
        && DictsOk(dicts, remaps) && ListedInts(intKeys, intGroups)
        && Tracking(Kinds(h.aggs), h.groups, intGroups, names, back, spec, KeysOfAll(dicts), width);
      packing
    }

    constructor (h: HashAggregate, n: nat)
      requires h.Valid() && h.groups == map[] && 0 < n <= 8
      ensures Valid() && this.h == h && this.n == n && spec == map[] && enabled
    {
      this.h, this.n, width, enabled := h, n, WidthFor(n), true;
      dicts, remaps := seq(n, _ => Builder([], map[])), seq(n, _ => map[]);
      intKeys, intGroups, names, back, spec := [], map[], map[], map[], map[];
    }

    /** One row without NULLs, under its packed key. */
    method AccumulatePacked(codes: seq<nat>, row: InRow)
      requires Valid() && enabled && RowOk(row)
      requires InRange(codes, KeysOfAll(dicts)) && Fit(codes, width) && row.group == Decoded(codes, KeysOfAll(dicts))
      modifies this`intKeys, this`intGroups, this`names, this`back, this`spec
      ensures Valid() && spec == Step(Kinds(h.aggs), old(spec), row)
    {
      ghost var kinds, ig, s, keys := Kinds(h.aggs), intGroups, KeyOf(row), KeysOfAll(dicts);
      var k := BuildIntKey(codes, width);
      ghost var g := FoldAt(kinds, ig, k, row);
      TrackInt(kinds, h.groups, ig, names, back, spec, keys, width, row, codes, k, s, g);
      FoldPacked(k, row);
      assert intGroups == ig[k := g];
      Adopt(names[k := s], back[s := k], Step(kinds, spec, row));
    }

    /** Takes over the bookkeeping of the groups as they now are. */
    ghost method Adopt(names': map<int, Bytes>, back': map<Bytes, int>, spec': Groups)
      requires h.Valid() && |dicts| == n && width <= 32 && enabled
      requires DictsOk(dicts, remaps) && ListedInts(intKeys, intGroups)
      requires Tracking(Kinds(h.aggs), h.groups, intGroups, names', back', spec', KeysOfAll(dicts), width)
      modifies this`names, this`back, this`spec
      ensures Valid() && spec == spec'
    {
      names, back, spec := names', back', spec';
    }

    /** The row folded into the group under its packed key, which it opens if new. */
    method FoldPacked(k: int, row: InRow)
      requires ListedInts(intKeys, intGroups)
      requires k in intGroups ==> intGroups[k].sample == row.group && |intGroups[k].accs| == |h.aggs|
      modifies this`intKeys, this`intGroups
      ensures ListedInts(intKeys, intGroups)
      ensures intGroups == old(intGroups)[k := FoldAt(Kinds(h.aggs), old(intGroups), k, row)]
    {
      var accs := if k in intGroups then intGroups[k].accs else InitAccs(Kinds(h.aggs));
      var out := h.FoldInto(accs, row);
      Store(k, Group(row.group, out));
    }

    /** Files a group under its key, listing the key if it is new. */
    method Store(k: int, g: Group)
      requires ListedInts(intKeys, intGroups)
      modifies this`intKeys, this`intGroups
      ensures ListedInts(intKeys, intGroups) && intGroups == old(intGroups)[k := g]
    {
      ListedIntsAdd(intKeys, intGroups, k, g);
      if k !in intGroups {
        intKeys := intKeys + [k];
      }
      intGroups := intGroups[k := g];
    }

    /** A row with a NULL key goes to the string-keyed map. */
    method AccumulateNull(row: InRow)
      requires Valid() && enabled && RowOk(row) && HasNull(row.group)
      modifies h, this`spec
      ensures Valid() && spec == Step(Kinds(h.aggs), old(spec), row)
    {
      TrackNull(Kinds(h.aggs), h.groups, intGroups, names, back, spec, KeysOfAll(dicts), width, row);
      h.AccumulateRow(row);
      spec := Step(Kinds(h.aggs), spec, row);
    }

    /** One row of a batch, by its packed key unless one of its columns is NULL. */
    method AccumulateAt(batch: KeyBatch, tables: seq<seq<nat>>, r: nat)
      requires Valid() && enabled && batch.Valid(n) && r in batch.rows
      requires |tables| == n && TablesOk(tables, batch.cols, dicts)
      requires forall i :: 0 <= i < |dicts| ==> |dicts[i].keys| < Pow2(width)
      modifies h, this`intKeys, this`intGroups, this`names, this`back, this`spec
      ensures Valid() && spec == Step(Kinds(h.aggs), old(spec), batch.RowAt(r))
    {
      RowAtOk(batch, r);
      var hasNull := RowHasNull(batch, r);
      if hasNull {
        AccumulateNull(batch.RowAt(r));
      } else {
        var codes := RowCodes(batch, tables, dicts, width, r);
        AccumulatePacked(codes, batch.RowAt(r));
      }
    }

    /** The hot loop over a batch whose codes all fit. */
    method AccumulateBatch(batch: KeyBatch, tables: seq<seq<nat>>)
      requires Valid() && enabled && batch.Valid(n) && |tables| == n && TablesOk(tables, batch.cols, dicts)
      requires forall i :: 0 <= i < |dicts| ==> |dicts[i].keys| < Pow2(width)
      modifies h, this`intKeys, this`intGroups, this`names, this`back, this`spec
      ensures Valid() && spec == FoldGroups(Kinds(h.aggs), old(spec), batch.Rows())
    {
      ghost var folds := Folds(Kinds(h.aggs), spec, batch.Rows());
      for i := 0 to |batch.rows|
        invariant Valid() && spec == folds[i]
      {
        assert FoldsAt(folds, Kinds(h.aggs), batch.Rows(), i);
        AccumulateAt(batch, tables, batch.rows[i]);
      }
    }

    /** One column's part of a string key, from its packed code. */
    method PieceOf(k: int, i: nat) returns (piece: Bytes)
      requires |dicts| == n && i < n && k in intGroups && KeyOk(k, intGroups[k], KeysOfAll(dicts), width)
      ensures |intGroups[k].sample| == n && piece == EncodeCell(intGroups[k].sample[i])
    {
      var cell := intGroups[k].sample[i];
      if cell.Null? {
        return EncodeCell(Null);
      }
      var code := Unpack(k, width, i);
      assert CodesOf(k, width, n)[i] == code && cell == Text(dicts[i].keys[code]);
      return EncodeText(dicts[i].keys[code]);
    }

    /** intKeyToStringKey: the string key of a packed one, column by column. */
    method StringKeyOf(k: int) returns (buf: Bytes)
      requires |dicts| == n && k in intGroups && KeysOk(intGroups, KeysOfAll(dicts), width)
      ensures buf == Encode(intGroups[k].sample)
    {
      ghost var sample := intGroups[k].sample;
      assert KeyOk(k, intGroups[k], KeysOfAll(dicts), width);
      buf := [];
      for i := 0 to n
        invariant i <= |sample| && buf == Encode(sample[..i])
      {
        var piece := PieceOf(k, i);
        EncodeSnoc(sample[..i], sample[i]);
        assert sample[..i + 1] == sample[..i] + [sample[i]];
        buf := buf + piece;
      }
      assert sample[..n] == sample;
    }

    method MoveGroup(k: int, ghost ig: map<int, Group>, ghost bk: map<Bytes, int>)
      requires |dicts| == n && k in intGroups && KeysOk(intGroups, KeysOfAll(dicts), width) && Named(intGroups, names)
      requires Listed(h.keys, h.groups) && Rep(h.groups, ig, names, bk, spec) && k in ig && ig[k] == intGroups[k]
      modifies h
      ensures Listed(h.keys, h.groups) && k in names && Rep(h.groups, ig - {k}, names, bk - {names[k]}, spec)
    {
      var key := StringKeyOf(k);
      RepMove(h.groups, ig, names, bk, spec, k);
      ListedAdd(h.keys, h.groups, key, intGroups[k]);
      h.keys := h.keys + [key];
      h.groups := h.groups[key := intGroups[k]];
    }

    /** materializeToStringMaps: moves every group to the string-keyed map. */
    method Materialize()
      requires Valid() && enabled
      modifies h, this`enabled
      ensures Valid() && !enabled && spec == old(spec) && h.groups == spec
    {
      ghost var kinds, ig, bk := Kinds(h.aggs), intGroups, back;
      assert SoundGroups(kinds, spec) && KeysOk(intGroups, KeysOfAll(dicts), width) && Named(intGroups, names);
      assert intKeys[0..] == intKeys;
      for i := 0 to |intKeys|
        invariant Listed(h.keys, h.groups) && Rep(h.groups, ig, names, bk, spec) && Left(ig, intKeys, intGroups, i)
      {
        LeftStep(ig, intKeys, intGroups, i);
        MoveGroup(intKeys[i], ig, bk);
        ig, bk := ig - {intKeys[i]}, bk - {names[intKeys[i]]};
      }
      LeftNothing(ig, intKeys, intGroups);
      RepDone(h.groups, ig, names, bk, spec);
      enabled := false;
    }

    /** accumulateIntKey: falls back to string keys, for good, once a dictionary has
        outgrown its bits. */
    method AccumulateIntKey(batch: KeyBatch)
      requires Valid() && enabled && batch.Valid(n)
      modifies this, h
      ensures Valid() && spec == FoldGroups(Kinds(h.aggs), old(spec), batch.Rows())
    {
      var tables := Remap(batch.cols);
      var over := CodeOverflows(dicts, width);
      if over {
        Materialize();
        AccumulateStrings(batch);
      } else {
        AccumulateBatch(batch, tables);
      }
    }

    method Remap(cols: seq<KeyColumn>) returns (tables: seq<seq<nat>>)
      requires Valid() && enabled && |cols| == n
      modifies this`dicts, this`remaps
      ensures Valid() && |tables| == n && TablesOk(tables, cols, dicts)
    {
      ghost var before := KeysOfAll(dicts);
      tables, dicts, remaps := MapColumns(cols, dicts, remaps);
      DictsApart(dicts, remaps);
      TrackGrow(Kinds(h.aggs), h.groups, intGroups, names, back, spec, before, KeysOfAll(dicts), width);
    }

    /** The string path, after a fallback. */
    method AccumulateStrings(batch: KeyBatch)
      requires Valid() && !enabled && batch.Valid(n)
      modifies h, this`spec
      ensures Valid() && spec == FoldGroups(Kinds(h.aggs), old(spec), batch.Rows())
    {
      forall i | 0 <= i < |batch.rows| ensures RowOk(batch.Rows()[i]) {
        RowAtOk(batch, batch.rows[i]);
      }
      h.AccumulateRows(batch.Rows());
      spec := h.groups;
    }

    method Accumulate(batch: KeyBatch)
      requires Valid() && batch.Valid(n)
      modifies this, h
      ensures Valid() && spec == FoldGroups(Kinds(h.aggs), old(spec), batch.Rows())
    {
      if enabled {
        AccumulateIntKey(batch);
      } else {
        AccumulateStrings(batch);
      }
    }
  }

  /** What is left to materialise after i keys. */
  ghost predicate Left<K(!new), V>(ig: map<K, V>, keys: seq<K>, m: map<K, V>, i: nat)
    requires i <= |keys|
  {
    (forall k :: k in ig <==> k in keys[i..]) && (forall k :: k in ig ==> k in m && ig[k] == m[k])
  }

  lemma {:induction false} LeftNothing<K(!new), V>(ig: map<K, V>, keys: seq<K>, m: map<K, V>)
    requires Left(ig, keys, m, |keys|)
    ensures ig.Keys == {}
  {
    var rest := keys[|keys|..];
    assert ig.Keys == set k | k in rest;
  }

  lemma {:induction false} LeftStep<K(!new), V>(ig: map<K, V>, keys: seq<K>, m: map<K, V>, i: nat)
    requires i < |keys| && NoRepeats(keys) && Left(ig, keys, m, i)
    ensures keys[i] in ig && Left(ig - {keys[i]}, keys, m, i + 1)
  {
    assert keys[i] == keys[i..][0];
    assert keys[i..] == [keys[i]] + keys[i + 1..];
    assert keys[i] !in keys[i + 1..];
  }

  /** The rows of some batches, in order. */
  function AllInputs(batches: seq<KeyBatch>, n: nat): seq<InRow>
    requires forall i :: 0 <= i < |batches| ==> batches[i].Valid(n)
  {
    if batches == [] then []
    else
      var last := batches[|batches| - 1];
      assert last.Valid(n);
      AllInputs(batches[..|batches| - 1], n) + last.Rows()
  }

  lemma {:induction false} InputsStorable(batches: seq<KeyBatch>, n: nat)
    requires forall i :: 0 <= i < |batches| ==> batches[i].Valid(n)
    ensures RowsOk(AllInputs(batches, n))
  {
    if batches != [] {
      var last := batches[|batches| - 1];
      assert last.Valid(n);
      InputsStorable(batches[..|batches| - 1], n);
      forall i | 0 <= i < |last.rows| ensures RowOk(last.Rows()[i]) {
        RowAtOk(last, last.rows[i]);
      }
    }
  }

  /** Any batches with any dictionaries, NULL keys, and an overflow at any point: the
      groups are those of the string-key path, each key listed once. */
  method AggregateKeyed(batches: seq<KeyBatch>, groupBy: seq<nat>, aggs: seq<AggExpr>) returns (h: HashAggregate)
    requires 0 < |groupBy| <= 8 && forall i :: 0 <= i < |batches| ==> batches[i].Valid(|groupBy|)
    ensures h.Valid() && h.aggs == aggs && h.groups == FoldGroups(Kinds(aggs), map[], AllInputs(batches, |groupBy|))
    ensures GroupsMean(Kinds(aggs), AllInputs(batches, |groupBy|), h.groups)
  {
    InputsStorable(batches, |groupBy|);
    FoldGroupsMean(Kinds(aggs), AllInputs(batches, |groupBy|));
    h := new HashAggregate(groupBy, aggs);
    var ik := new IntKeyAggregate(h, |groupBy|);
    for i := 0 to |batches|
      invariant fresh(h) && fresh(ik) && ik.h == h && ik.n == |groupBy| && h.aggs == aggs
      invariant ik.Valid() && ik.spec == FoldGroups(Kinds(aggs), map[], AllInputs(batches[..i], |groupBy|))
    {
      assert batches[..i + 1][..i] == batches[..i];
      FoldConcat(Kinds(aggs), map[], AllInputs(batches[..i], |groupBy|), batches[i].Rows());
      ik.Accumulate(batches[i]);
    }
    assert batches[..|batches|] == batches;
    if ik.enabled {
      ik.Materialize();
    }
  }
}
