/** The Windows credential backend: a secret is cut into chunks stored under a fresh generation,
    and one index entry names the current generation. */
module Credentials {
  import opened Text

  newtype byte = x: int | 0 <= x < 256

  const CHUNK_BYTES: nat := 1200
  const MAX_CHUNKS: nat := 1024

  /** A keyring value: the text of an index, or the base64 text of a chunk, kept as its bytes. */
  datatype Value = IndexText(text: string) | ChunkText(bytes: seq<byte>)

  type Keyring = map<string, Value>

  datatype Index = Index(generation: string, chunks: nat)

  datatype Loaded = Found(index: Index) | Missing | Invalid

  /** What reading a reference gives: its bytes, not found, or an undecodable entry. */
  datatype Got = Data(bytes: seq<byte>) | NotFound | Broken

  // ---- names ----

  function IndexName(reference: string): string { reference + ":index" }

  function ChunkPrefix(reference: string, generation: string): string
  {
    reference + ":" + (generation + ":")
  }

  function ChunkName(reference: string, generation: string, index: nat): string
  {
    ChunkPrefix(reference, generation) + Itoa(index)
  }

  function Owner(name: string): string { Before(name, ':') }

  predicate Plain(s: string) { ':' !in s }

  lemma OwnerOfIndex(reference: string)
    requires Plain(reference)
    ensures Owner(IndexName(reference)) == reference && After(IndexName(reference), ':') == "index"
  {
    assert IndexName(reference) == reference + [':'] + "index";
    CutAt(reference, ':', "index");
  }

  /** A name under a chunk prefix determines the reference and the generation. */
  lemma OwnerOfChunk(reference: string, generation: string, name: string)
    requires Plain(reference) && Plain(generation) && ChunkPrefix(reference, generation) <= name
    ensures Owner(name) == reference
    ensures ':' in After(name, ':') && Before(After(name, ':'), ':') == generation
  {
    var tail := name[|ChunkPrefix(reference, generation)|..];
    var inner := generation + [':'] + tail;
    assert name == reference + [':'] + inner;
    CutAt(reference, ':', inner);
    CutAt(generation, ':', tail);
  }

  lemma ChunkNamesApart(reference: string, g: string, i: nat, h: string, j: nat)
    requires Plain(reference) && Plain(g) && Plain(h)
    ensures ChunkName(reference, g, i) == ChunkName(reference, h, j) <==> g == h && i == j
    ensures ChunkPrefix(reference, h) <= ChunkName(reference, g, i) <==> g == h
  {
    OwnerOfChunk(reference, g, ChunkName(reference, g, i));
    OwnerOfChunk(reference, h, ChunkName(reference, h, j));
    if ChunkPrefix(reference, h) <= ChunkName(reference, g, i) {
      OwnerOfChunk(reference, h, ChunkName(reference, g, i));
    }
    if g == h && ChunkName(reference, g, i) == ChunkName(reference, h, j) {
      var n := |ChunkPrefix(reference, g)|;
      assert Itoa(i) == ChunkName(reference, g, i)[n..] && Itoa(j) == ChunkName(reference, h, j)[n..];
      ItoaInjective(i, j);
    }
  }

  lemma IndexNameApart(reference: string, generation: string)
    requires Plain(reference) && Plain(generation)
    ensures !(ChunkPrefix(reference, generation) <= IndexName(reference))
    ensures forall i: nat :: ChunkName(reference, generation, i) != IndexName(reference)
  {
    OwnerOfIndex(reference);
    if ChunkPrefix(reference, generation) <= IndexName(reference) {
      OwnerOfChunk(reference, generation, IndexName(reference));
    }
    forall i: nat ensures ChunkName(reference, generation, i) != IndexName(reference) {
      OwnerOfChunk(reference, generation, ChunkName(reference, generation, i));
    }
  }

  // ---- the index ----

  function IndexValue(index: Index): string
  {
    "v1:" + index.generation + ":" + Itoa(index.chunks)
  }

  function ParseIndex(text: string): (r: Option<Index>)
    ensures r.Some? ==> 1 <= r.value.chunks <= MAX_CHUNKS && |r.value.generation| == 24 && Plain(r.value.generation)
  {
    var parts := Split(text, ':');
    if |parts| != 3 || parts[0] != "v1" || |parts[1]| != 24 then None
    else
      var chunks := Atoi(parts[2]);
      if chunks.None? || chunks.value < 1 || chunks.value > MAX_CHUNKS then None
      else Some(Index(parts[1], chunks.value))
  }

  /** The index text reads back exactly when the number of chunks is one the reader accepts. */
  lemma IndexRoundTrip(index: Index)
    requires |index.generation| == 24 && Plain(index.generation)
    ensures ParseIndex(IndexValue(index)) == if 1 <= index.chunks <= MAX_CHUNKS then Some(index) else None
  {
    var digits := Itoa(index.chunks);
    AtoiItoa(index.chunks);
    assert ':' !in digits;
    SplitWhole("v1", ':');
    SplitWhole(index.generation, ':');
    SplitWhole(digits, ':');
    SplitConcat(index.generation, ':', digits);
    SplitConcat("v1", ':', index.generation + [':'] + digits);
    assert IndexValue(index) == "v1" + [':'] + (index.generation + [':'] + digits);
    assert Split(IndexValue(index), ':') == ["v1"] + ([index.generation] + [digits]);
  }

  function LoadIndex(entries: Keyring, reference: string): (r: Loaded)
    ensures r.Found? ==> 1 <= r.index.chunks <= MAX_CHUNKS && Plain(r.index.generation)
  {
    var name := IndexName(reference);
    if name !in entries then Missing
    else if entries[name].ChunkText? then Invalid
    else
      var parsed := ParseIndex(entries[name].text);
      if parsed.Some? then Found(parsed.value) else Invalid
  }

  // ---- reading ----

  /** Reading the chunks from number `from` on, each from its own snapshot of the keyring:
      a reader is not atomic, so a writer may act between any two of its calls. */
  function ReadChunks(snapshots: nat -> Keyring, reference: string, index: Index, from: nat): (r: Got)
    requires from <= index.chunks
    decreases index.chunks - from
  {
    if from == index.chunks then Data([])
    else
      var name, entries := ChunkName(reference, index.generation, from), snapshots(from);
      if name !in entries then NotFound
      else if entries[name].IndexText? then Broken
      else
        var rest := ReadChunks(snapshots, reference, index, from + 1);
        if rest.Data? then Data(entries[name].bytes + rest.bytes) else rest
  }

  function ReadAcross(first: Keyring, snapshots: nat -> Keyring, reference: string): (r: Got)
  {
    match LoadIndex(first, reference)
    case Missing => NotFound
    case Invalid => Broken
    case Found(index) => ReadChunks(snapshots, reference, index, 0)
  }

  function Still(entries: Keyring): nat -> Keyring { _ => entries }

  /** A read that nothing interrupts. */
  function Read(entries: Keyring, reference: string): (r: Got)
  {
    ReadAcross(entries, Still(entries), reference)
  }

  // ---- cutting data into chunks ----

  function ChunkCount(size: nat): (n: nat)
    ensures n >= 1
    ensures n <= MAX_CHUNKS <==> size <= MAX_CHUNKS * CHUNK_BYTES
  {
    var n := (size + CHUNK_BYTES - 1) / CHUNK_BYTES;
    if n == 0 then 1 else n
  }

  function ChunkEnd(size: nat, i: nat): (end: nat)
  {
    var end := i * CHUNK_BYTES + CHUNK_BYTES;
    if end > size then size else end
  }

  function Piece(data: seq<byte>, i: nat): (piece: seq<byte>)
    requires i < ChunkCount(|data|)
  {
    data[i * CHUNK_BYTES..ChunkEnd(|data|, i)]
  }

  // ---- the states a Put passes through ----

  ghost predicate SameEntry(a: Keyring, b: Keyring, name: string)
  {
    (name in a <==> name in b) && (name in a ==> a[name] == b[name])
  }

  /** No entry and no index uses the generation yet. */
  ghost predicate Fresh(entries: Keyring, reference: string, generation: string)
  {
    (forall name :: name in entries ==> !(ChunkPrefix(reference, generation) <= name))
    && (LoadIndex(entries, reference).Found? ==> LoadIndex(entries, reference).index.generation != generation)
  }

  /** Before the switch: nothing but chunks of the new generation has changed. */
  ghost predicate NotSwitched(e0: Keyring, e: Keyring, reference: string, generation: string)
  {
    forall name :: !(ChunkPrefix(reference, generation) <= name) ==> SameEntry(e0, e, name)
  }

  /** The chunks of the new generation, the first `n` of them. */
  ghost predicate HoldsChunks(e: Keyring, reference: string, generation: string, data: seq<byte>, n: nat)
    requires n <= ChunkCount(|data|)
  {
    forall i :: 0 <= i < n ==>
      ChunkName(reference, generation, i) in e && e[ChunkName(reference, generation, i)] == ChunkText(Piece(data, i))
  }

  /** After the switch: the index names a complete new generation, and old entries only go away. */
  ghost predicate Switched(e0: Keyring, e: Keyring, reference: string, generation: string, data: seq<byte>)
  {
    IndexName(reference) in e
    && e[IndexName(reference)] == IndexText(IndexValue(Index(generation, ChunkCount(|data|))))
    && HoldsChunks(e, reference, generation, data, ChunkCount(|data|))
    && (forall name :: Owner(name) != reference ==> SameEntry(e0, e, name))
    && (forall name :: name in e && name != IndexName(reference) && !(ChunkPrefix(reference, generation) <= name)
          ==> name in e0 && e[name] == e0[name])
  }

  // ---- what a reader sees in those states ----

  ghost predicate SameChunks(f: nat -> Keyring, g: nat -> Keyring, reference: string, index: Index)
  {
    forall i :: 0 <= i < index.chunks ==> SameEntry(f(i), g(i), ChunkName(reference, index.generation, i))
  }

  lemma {:induction false} ReadSame(f: nat -> Keyring, g: nat -> Keyring, reference: string, index: Index, from: nat)
    requires from <= index.chunks && SameChunks(f, g, reference, index)
    ensures ReadChunks(f, reference, index, from) == ReadChunks(g, reference, index, from)
    decreases index.chunks - from
  {
    if from < index.chunks {
      assert SameEntry(f(from), g(from), ChunkName(reference, index.generation, from));
      ReadSame(f, g, reference, index, from + 1);
    }
  }

  /** Losing chunks turns a read into not-found, never into a shorter or mixed value. */
  lemma {:induction false} ReadLosing(f: nat -> Keyring, e0: Keyring, reference: string, index: Index, from: nat)
    requires from <= index.chunks
    requires forall i :: 0 <= i < index.chunks && ChunkName(reference, index.generation, i) in f(i) ==>
      SameEntry(f(i), e0, ChunkName(reference, index.generation, i))
    ensures ReadChunks(f, reference, index, from) == ReadChunks(Still(e0), reference, index, from)
      || ReadChunks(f, reference, index, from) == NotFound
    decreases index.chunks - from
  {
    if from < index.chunks { ReadLosing(f, e0, reference, index, from + 1); }
  }

  lemma {:induction false} ReadComplete(f: nat -> Keyring, reference: string, generation: string, data: seq<byte>, from: nat)
    requires from <= ChunkCount(|data|)
    requires forall i :: 0 <= i < ChunkCount(|data|) ==> HoldsChunks(f(i), reference, generation, data, ChunkCount(|data|))
    ensures ReadChunks(f, reference, Index(generation, ChunkCount(|data|)), from) ==
      Data(if from == ChunkCount(|data|) then [] else data[from * CHUNK_BYTES..])
    decreases ChunkCount(|data|) - from
  {
    if from < ChunkCount(|data|) {
      ReadComplete(f, reference, generation, data, from + 1);
      assert HoldsChunks(f(from), reference, generation, data, ChunkCount(|data|));
      assert ChunkName(reference, generation, from) in f(from);
      PieceJoins(data, from);
    }
  }

  lemma PieceJoins(data: seq<byte>, i: nat)
    requires i < ChunkCount(|data|)
    ensures i * CHUNK_BYTES <= |data|
    ensures data[i * CHUNK_BYTES..] ==
      Piece(data, i) + if i + 1 == ChunkCount(|data|) then [] else data[(i + 1) * CHUNK_BYTES..]
  {
    var start, end := i * CHUNK_BYTES, ChunkEnd(|data|, i);
    if i + 1 == ChunkCount(|data|) {
      assert end == |data|;
      assert data[start..] == data[start..end] + [];
    } else {
      assert end == (i + 1) * CHUNK_BYTES <= |data|;
      assert data[start..] == data[start..end] + data[end..];
    }
  }

  /** What a completed Put leaves to be read: the data, or an entry no reader accepts when the
      data needs more chunks than the index format allows. */
  function Written(data: seq<byte>): (r: Got)
  {
    if |data| <= MAX_CHUNKS * CHUNK_BYTES then Data(data) else Broken
  }

  ghost predicate ValidNames(reference: string, generation: string)
  {
    Plain(reference) && |generation| == 24 && Plain(generation)
  }

  lemma NotSwitchedIndex(e0: Keyring, e: Keyring, reference: string, generation: string)
    requires ValidNames(reference, generation) && NotSwitched(e0, e, reference, generation)
    ensures LoadIndex(e, reference) == LoadIndex(e0, reference)
  {
    IndexNameApart(reference, generation);
    assert SameEntry(e0, e, IndexName(reference));
  }

  lemma NotSwitchedRead(e0: Keyring, e: Keyring, reference: string, generation: string)
    requires ValidNames(reference, generation) && Fresh(e0, reference, generation)
    requires NotSwitched(e0, e, reference, generation)
    ensures Read(e, reference) == Read(e0, reference)
  {
    NotSwitchedIndex(e0, e, reference, generation);
    if LoadIndex(e0, reference).Found? {
      var index := LoadIndex(e0, reference).index;
      forall i | 0 <= i < index.chunks
        ensures SameEntry(Still(e)(i), Still(e0)(i), ChunkName(reference, index.generation, i))
      {
        ChunkNamesApart(reference, index.generation, i, generation, 0);
        assert SameEntry(e0, e, ChunkName(reference, index.generation, i));
      }
      ReadSame(Still(e), Still(e0), reference, index, 0);
    }
  }

  lemma SwitchedIndex(e: Keyring, reference: string, generation: string, data: seq<byte>)
    requires ValidNames(reference, generation)
    requires IndexName(reference) in e
      && e[IndexName(reference)] == IndexText(IndexValue(Index(generation, ChunkCount(|data|))))
    ensures LoadIndex(e, reference) ==
      if |data| <= MAX_CHUNKS * CHUNK_BYTES then Found(Index(generation, ChunkCount(|data|))) else Invalid
  {
    IndexRoundTrip(Index(generation, ChunkCount(|data|)));
  }

  lemma SwitchedRead(e0: Keyring, e: Keyring, reference: string, generation: string, data: seq<byte>)
    requires ValidNames(reference, generation) && Switched(e0, e, reference, generation, data)
    ensures Read(e, reference) == Written(data)
  {
    SwitchedIndex(e, reference, generation, data);
    ReadComplete(Still(e), reference, generation, data, 0);
    assert data[0..] == data;
  }

  /** No operation on one reference can change what another one reads. */
  lemma OtherRead(e0: Keyring, e: Keyring, reference: string)
    requires Plain(reference)
    requires forall name :: Owner(name) == reference ==> SameEntry(e0, e, name)
    ensures Read(e, reference) == Read(e0, reference)
  {
    OwnerOfIndex(reference);
    assert SameEntry(e0, e, IndexName(reference));
    if LoadIndex(e0, reference).Found? {
      var index := LoadIndex(e0, reference).index;
      forall i | 0 <= i < index.chunks
        ensures SameEntry(Still(e)(i), Still(e0)(i), ChunkName(reference, index.generation, i))
      {
        OwnerOfChunk(reference, index.generation, ChunkName(reference, index.generation, i));
      }
      ReadSame(Still(e), Still(e0), reference, index, 0);
    }
  }

  ghost predicate DuringPut(e0: Keyring, e: Keyring, reference: string, generation: string, data: seq<byte>)
  {
    NotSwitched(e0, e, reference, generation) || Switched(e0, e, reference, generation, data)
  }

  lemma OldChunkDuringPut(e0: Keyring, e: Keyring, reference: string, generation: string, data: seq<byte>, old_: string, i: nat)
    requires ValidNames(reference, generation) && Plain(old_) && old_ != generation
    requires DuringPut(e0, e, reference, generation, data)
    requires ChunkName(reference, old_, i) in e
    ensures SameEntry(e, e0, ChunkName(reference, old_, i))
  {
    ChunkNamesApart(reference, old_, i, generation, 0);
    IndexNameApart(reference, old_);
    if NotSwitched(e0, e, reference, generation) {
      assert SameEntry(e0, e, ChunkName(reference, old_, i));
    }
  }

  /** The states of a Put: some before the switch, the rest after it. */
  ghost predicate PutTrace(e0: Keyring, states: seq<Keyring>, reference: string, generation: string, data: seq<byte>)
  {
    exists m :: 0 <= m <= |states| && SwitchedAt(e0, states, reference, generation, data, m)
  }

  ghost predicate SwitchedAt(e0: Keyring, states: seq<Keyring>, reference: string, generation: string, data: seq<byte>, m: nat)
  {
    (forall k :: 0 <= k < m && k < |states| ==> NotSwitched(e0, states[k], reference, generation))
    && (forall k :: m <= k < |states| ==> Switched(e0, states[k], reference, generation, data))
  }

  /** The states that a reader's successive calls meet. */
  function Snapshots(states: seq<Keyring>, at: nat -> nat): nat -> Keyring
  {
    (i: nat) => if at(i) < |states| then states[at(i)] else map[]
  }

  /** A reader whose calls interleave with a Put gets the whole old value, the whole new value,
      or not-found: it loads the index from one state and every chunk from that or a later one. */
  lemma ReadDuringPut(e0: Keyring, states: seq<Keyring>, reference: string, generation: string, data: seq<byte>,
                      t: nat, at: nat -> nat)
    requires ValidNames(reference, generation) && Fresh(e0, reference, generation)
    requires PutTrace(e0, states, reference, generation, data)
    requires t < |states| && forall i: nat :: t <= at(i) < |states|
    ensures ReadAcross(states[t], Snapshots(states, at), reference) in {Read(e0, reference), Written(data), NotFound}
  {
    var m :| 0 <= m <= |states| && SwitchedAt(e0, states, reference, generation, data, m);
    var snapshots := Snapshots(states, at);
    if m <= t {
      SwitchedIndex(states[t], reference, generation, data);
      forall i: nat ensures Switched(e0, snapshots(i), reference, generation, data) {
        assert t <= at(i) < |states|;
      }
      ReadComplete(snapshots, reference, generation, data, 0);
      assert data[0..] == data;
    } else {
      NotSwitchedIndex(e0, states[t], reference, generation);
      if LoadIndex(e0, reference).Found? {
        var index := LoadIndex(e0, reference).index;
        forall i: nat | 0 <= i < index.chunks && ChunkName(reference, index.generation, i) in snapshots(i)
          ensures SameEntry(snapshots(i), e0, ChunkName(reference, index.generation, i))
        {
          assert t <= at(i) < |states|;
          assert DuringPut(e0, states[at(i)], reference, generation, data);
          OldChunkDuringPut(e0, snapshots(i), reference, generation, data, index.generation, i);
        }
        ReadLosing(snapshots, e0, reference, index, 0);
      }
    }
  }

  /** The states of a Delete: entries of the reference only go away. */
  ghost predicate DuringDelete(e0: Keyring, e: Keyring, reference: string)
  {
    forall name :: (Owner(name) != reference ==> SameEntry(e0, e, name)) && (name in e ==> SameEntry(e0, e, name))
  }

  ghost predicate DeleteTrace(e0: Keyring, states: seq<Keyring>, reference: string)
  {
    forall k :: 0 <= k < |states| ==> DuringDelete(e0, states[k], reference)
  }

  /** A reader whose calls interleave with a Delete gets the whole old value or not-found. */
  lemma ReadDuringDelete(e0: Keyring, first: Keyring, snapshots: nat -> Keyring, reference: string)
    requires Plain(reference)
    requires DuringDelete(e0, first, reference) && forall i: nat :: DuringDelete(e0, snapshots(i), reference)
    ensures ReadAcross(first, snapshots, reference) in {Read(e0, reference), NotFound}
  {
    if IndexName(reference) in first {
      assert SameEntry(e0, first, IndexName(reference));
      if LoadIndex(e0, reference).Found? {
        var index := LoadIndex(e0, reference).index;
        forall i: nat | 0 <= i < index.chunks && ChunkName(reference, index.generation, i) in snapshots(i)
          ensures SameEntry(snapshots(i), e0, ChunkName(reference, index.generation, i))
        {
          assert DuringDelete(e0, snapshots(i), reference);
          assert SameEntry(e0, snapshots(i), ChunkName(reference, index.generation, i));
        }
        ReadLosing(snapshots, e0, reference, index, 0);
      }
    }
  }

  /** The keyring holds exactly the index and the chunks of the reference, and nothing else of it. */
  ghost predicate Tidy(e: Keyring, reference: string)
  {
    match LoadIndex(e, reference)
    case Invalid => false
    case Missing => forall name :: name in e ==> Owner(name) != reference
    case Found(index) =>
      (forall i :: 0 <= i < index.chunks ==> ChunkName(reference, index.generation, i) in e)
      && (forall name :: name in e && Owner(name) == reference ==>
            name == IndexName(reference) || IsChunk(name, reference, index.generation, index.chunks))
  }

  ghost predicate IsChunk(name: string, reference: string, generation: string, chunks: nat)
  {
    exists i :: 0 <= i < chunks && name == ChunkName(reference, generation, i)
  }

  // ---- the keyring, every call of which may fail without effect ----

  datatype Answer = Entry(value: Value) | Absent | Failed

  class KeyringService {
    var entries: Keyring
    /** The entries after each writing call, and the number of calls that failed. */
    ghost var history: seq<Keyring>
    ghost var failures: nat

    method Set(name: string, value: Value) returns (ok: bool)
      modifies this
      ensures entries == if ok then old(entries)[name := value] else old(entries)
      ensures history == old(history) + [entries]
      ensures failures == old(failures) + if ok then 0 else 1
    {
      ok := *;
      if ok { entries := entries[name := value]; } else { failures := failures + 1; }
      history := history + [entries];
    }

    method Get(name: string) returns (answer: Answer)
      modifies this`failures
      ensures answer == Failed ==> failures == old(failures) + 1
      ensures answer != Failed ==> failures == old(failures)
      ensures answer != Failed ==> answer == if name in entries then Entry(entries[name]) else Absent
    {
      var fails := *;
      if fails { failures := failures + 1; return Failed; }
      answer := if name in entries then Entry(entries[name]) else Absent;
    }

    /** `removed` and `missing` are both false when the call failed. */
    method Delete(name: string) returns (removed: bool, missing: bool)
      modifies this
      ensures !(removed && missing)
      ensures removed ==> name in old(entries)
      ensures missing ==> name !in old(entries)
      ensures entries == if removed then old(entries) - {name} else old(entries)
      ensures history == old(history) + [entries]
      ensures failures == old(failures) + if removed || missing then 0 else 1
    {
      var fails := *;
      removed, missing := !fails && name in entries, !fails && name !in entries;
      if removed { entries := entries - {name}; }
      if fails { failures := failures + 1; }
      history := history + [entries];
    }
  }

  /** Only chunks of one generation have gone away. */
  ghost predicate Shrunk(a: Keyring, b: Keyring, reference: string, generation: string)
  {
    forall name :: (!(ChunkPrefix(reference, generation) <= name) ==> SameEntry(a, b, name))
                   && (name in b ==> SameEntry(a, b, name))
  }

  /** The entries after the last writing call. */
  ghost function LastOf(e0: Keyring, before: seq<Keyring>, after: seq<Keyring>): Keyring
  {
    if |after| > |before| then after[|after| - 1] else e0
  }

  method DeleteChunks(ring: KeyringService, reference: string, generation: string, chunks: nat)
    modifies ring
    ensures ring.entries == LastOf(old(ring.entries), old(ring.history), ring.history)
    ensures old(ring.history) <= ring.history && ring.failures >= old(ring.failures)
    ensures Shrunk(old(ring.entries), ring.entries, reference, generation)
    ensures forall k :: |old(ring.history)| <= k < |ring.history| ==>
      Shrunk(old(ring.entries), ring.history[k], reference, generation)
    ensures ring.failures == old(ring.failures) ==>
      forall i :: 0 <= i < chunks ==> ChunkName(reference, generation, i) !in ring.entries
  {
    for index := 0 to chunks
      invariant old(ring.history) <= ring.history && ring.failures >= old(ring.failures)
      invariant ring.entries == LastOf(old(ring.entries), old(ring.history), ring.history)
      invariant Shrunk(old(ring.entries), ring.entries, reference, generation)
      invariant forall k :: |old(ring.history)| <= k < |ring.history| ==>
        Shrunk(old(ring.entries), ring.history[k], reference, generation)
      invariant ring.failures == old(ring.failures) ==>
        forall i :: 0 <= i < index ==> ChunkName(reference, generation, i) !in ring.entries
    {
      var removed, missing := ring.Delete(ChunkName(reference, generation, index));
    }
  }

  lemma ShrunkNotSwitched(e0: Keyring, a: Keyring, b: Keyring, reference: string, generation: string)
    requires NotSwitched(e0, a, reference, generation) && Shrunk(a, b, reference, generation)
    ensures NotSwitched(e0, b, reference, generation)
  {
    forall name | !(ChunkPrefix(reference, generation) <= name) ensures SameEntry(e0, b, name) {
      assert SameEntry(e0, a, name) && SameEntry(a, b, name);
    }
  }

  lemma ShrunkSwitched(e0: Keyring, a: Keyring, b: Keyring, reference: string, generation: string, data: seq<byte>, gone: string)
    requires ValidNames(reference, generation) && Plain(gone) && gone != generation
    requires Switched(e0, a, reference, generation, data) && Shrunk(a, b, reference, gone)
    ensures Switched(e0, b, reference, generation, data)
  {
    IndexNameApart(reference, gone);
    assert SameEntry(a, b, IndexName(reference));
    forall i | 0 <= i < ChunkCount(|data|)
      ensures ChunkName(reference, generation, i) in b && b[ChunkName(reference, generation, i)] == ChunkText(Piece(data, i))
    {
      ChunkNamesApart(reference, generation, i, gone, 0);
      assert SameEntry(a, b, ChunkName(reference, generation, i));
    }
    forall name | Owner(name) != reference ensures SameEntry(e0, b, name) {
      if ChunkPrefix(reference, gone) <= name { OwnerOfChunk(reference, gone, name); }
      assert SameEntry(e0, a, name) && SameEntry(a, b, name);
    }
    forall name | name in b && name != IndexName(reference) && !(ChunkPrefix(reference, generation) <= name)
      ensures name in e0 && b[name] == e0[name]
    {
      assert SameEntry(a, b, name);
    }
  }

  /** Overwriting the index once all chunks are in place is the switch. */
  lemma Switching(e0: Keyring, a: Keyring, reference: string, generation: string, data: seq<byte>)
    requires ValidNames(reference, generation) && NotSwitched(e0, a, reference, generation)
    requires HoldsChunks(a, reference, generation, data, ChunkCount(|data|))
    ensures Switched(e0, a[IndexName(reference) := IndexText(IndexValue(Index(generation, ChunkCount(|data|))))],
                     reference, generation, data)
  {
    var b := a[IndexName(reference) := IndexText(IndexValue(Index(generation, ChunkCount(|data|))))];
    IndexNameApart(reference, generation);
    OwnerOfIndex(reference);
    forall name | Owner(name) != reference ensures SameEntry(e0, b, name) {
      if ChunkPrefix(reference, generation) <= name { OwnerOfChunk(reference, generation, name); }
      assert SameEntry(e0, a, name);
    }
    forall name | name in b && name != IndexName(reference) && !(ChunkPrefix(reference, generation) <= name)
      ensures name in e0 && b[name] == e0[name]
    {
      assert SameEntry(e0, a, name);
    }
  }

  lemma Writing(e0: Keyring, a: Keyring, reference: string, generation: string, data: seq<byte>, n: nat)
    requires ValidNames(reference, generation) && NotSwitched(e0, a, reference, generation)
    requires n < ChunkCount(|data|) && HoldsChunks(a, reference, generation, data, n)
    ensures var b := a[ChunkName(reference, generation, n) := ChunkText(Piece(data, n))];
      NotSwitched(e0, b, reference, generation) && HoldsChunks(b, reference, generation, data, n + 1)
  {
    var b := a[ChunkName(reference, generation, n) := ChunkText(Piece(data, n))];
    forall name | !(ChunkPrefix(reference, generation) <= name) ensures SameEntry(e0, b, name) {
      assert SameEntry(e0, a, name);
    }
    forall i | 0 <= i < n + 1
      ensures ChunkName(reference, generation, i) in b && b[ChunkName(reference, generation, i)] == ChunkText(Piece(data, i))
    {
      ChunkNamesApart(reference, generation, i, generation, n);
    }
  }

  method LoadIndexFrom(ring: KeyringService, reference: string) returns (loaded: Loaded, failed: bool)
    modifies ring`failures
    ensures !failed ==> loaded == LoadIndex(ring.entries, reference) && ring.failures == old(ring.failures)
    ensures failed ==> ring.failures > old(ring.failures)
  {
    var answer := ring.Get(IndexName(reference));
    failed := answer == Failed;
    loaded := Invalid;
    match answer {
      case Failed =>
      case Absent => loaded := Missing;
      case Entry(value) =>
        if value.IndexText? {
          var parsed := ParseIndex(value.text);
          if parsed.Some? { loaded := Found(parsed.value); }
        }
    }
  }

  /** The states a call has passed through, the one it started in included. */
  ghost function Trace(e0: Keyring, before: seq<Keyring>, after: seq<Keyring>): (states: seq<Keyring>)
    requires before <= after
  {
    [e0] + after[|before|..]
  }

  lemma NotSwitchedTrace(e0: Keyring, h0: seq<Keyring>, h: seq<Keyring>, reference: string, generation: string, data: seq<byte>)
    requires h0 <= h
    requires forall k :: |h0| <= k < |h| ==> NotSwitched(e0, h[k], reference, generation)
    ensures PutTrace(e0, Trace(e0, h0, h), reference, generation, data)
  {
    var states := Trace(e0, h0, h);
    forall k | 0 < k < |states| ensures states[k] == h[|h0| + k - 1] {}
    assert SwitchedAt(e0, states, reference, generation, data, |states|);
  }

  lemma SwitchedTrace(e0: Keyring, h0: seq<Keyring>, h: seq<Keyring>, reference: string, generation: string, data: seq<byte>, m: nat)
    requires h0 <= h && |h0| <= m <= |h|
    requires forall k :: |h0| <= k < m ==> NotSwitched(e0, h[k], reference, generation)
    requires forall k :: m <= k < |h| ==> Switched(e0, h[k], reference, generation, data)
    ensures PutTrace(e0, Trace(e0, h0, h), reference, generation, data)
  {
    var states := Trace(e0, h0, h);
    forall k | 0 < k < |states| ensures states[k] == h[|h0| + k - 1] {}
    assert SwitchedAt(e0, states, reference, generation, data, 1 + m - |h0|);
  }

  ghost predicate OnlyChunks(e: Keyring, reference: string, generation: string, n: nat)
  {
    forall name :: name in e && ChunkPrefix(reference, generation) <= name ==> IsChunk(name, reference, generation, n)
  }

  /** The chunks that the index named at first are gone. */
  ghost predicate ChunksGone(e0: Keyring, e: Keyring, reference: string)
  {
    var loaded := LoadIndex(e0, reference);
    loaded.Found? ==> forall i :: 0 <= i < loaded.index.chunks ==> ChunkName(reference, loaded.index.generation, i) !in e
  }

  lemma TidyAfterPut(e0: Keyring, e: Keyring, reference: string, generation: string, data: seq<byte>)
    requires ValidNames(reference, generation) && |data| <= MAX_CHUNKS * CHUNK_BYTES
    requires Switched(e0, e, reference, generation, data) && OnlyChunks(e, reference, generation, ChunkCount(|data|))
    requires Tidy(e0, reference) && ChunksGone(e0, e, reference)
    ensures Tidy(e, reference)
  {
    SwitchedIndex(e, reference, generation, data);
    forall name | name in e && Owner(name) == reference
      ensures name == IndexName(reference) || IsChunk(name, reference, generation, ChunkCount(|data|))
    {
      if name != IndexName(reference) && !(ChunkPrefix(reference, generation) <= name) {}
    }
  }

  /** The chunk loop of Put; a failing call removes what was written and gives up. */
  method WriteChunks(ring: KeyringService, reference: string, data: seq<byte>, generation: string) returns (ok: bool)
    requires ValidNames(reference, generation) && Fresh(ring.entries, reference, generation)
    modifies ring
    ensures ring.entries == LastOf(old(ring.entries), old(ring.history), ring.history)
    ensures old(ring.history) <= ring.history && ring.failures >= old(ring.failures)
    ensures NotSwitched(old(ring.entries), ring.entries, reference, generation)
    ensures forall k :: |old(ring.history)| <= k < |ring.history| ==>
      NotSwitched(old(ring.entries), ring.history[k], reference, generation)
    ensures ok ==> HoldsChunks(ring.entries, reference, generation, data, ChunkCount(|data|))
    ensures ok ==> OnlyChunks(ring.entries, reference, generation, ChunkCount(|data|))
    ensures ok ==> ring.failures == old(ring.failures)
    ensures !ok ==> ring.failures > old(ring.failures)
    ensures !ok && ring.failures == old(ring.failures) + 1 ==> ring.entries == old(ring.entries)
  {
    ghost var e0, h0 := ring.entries, ring.history;
    var chunks := ChunkCount(|data|);
    for index := 0 to chunks
      invariant h0 <= ring.history && ring.failures == old(ring.failures)
      invariant ring.entries == LastOf(e0, h0, ring.history)
      invariant NotSwitched(e0, ring.entries, reference, generation)
      invariant HoldsChunks(ring.entries, reference, generation, data, index)
      invariant OnlyChunks(ring.entries, reference, generation, index)
      invariant forall k :: |h0| <= k < |ring.history| ==> NotSwitched(e0, ring.history[k], reference, generation)
    {
      ghost var before := ring.entries;
      Writing(e0, before, reference, generation, data, index);
      ok := ring.Set(ChunkName(reference, generation, index), ChunkText(Piece(data, index)));
      if !ok {
        ClearChunks(ring, e0, h0, reference, generation, index);
        return;
      }
      OnlyChunksGrow(before, ring.entries, reference, generation, index, ChunkText(Piece(data, index)));
    }
    ok := true;
  }

  lemma OnlyChunksGrow(a: Keyring, b: Keyring, reference: string, generation: string, n: nat, value: Value)
    requires OnlyChunks(a, reference, generation, n) && b == a[ChunkName(reference, generation, n) := value]
    ensures OnlyChunks(b, reference, generation, n + 1)
  {
    forall name | name in b && ChunkPrefix(reference, generation) <= name ensures IsChunk(name, reference, generation, n + 1) {
      if name != ChunkName(reference, generation, n) {
        assert IsChunk(name, reference, generation, n);
      }
    }
  }

  /** Removing the chunks of a generation the index does not name is invisible. */
  method ClearChunks(ring: KeyringService, ghost e0: Keyring, ghost h0: seq<Keyring>,
                     reference: string, generation: string, chunks: nat)
    requires h0 <= ring.history && NotSwitched(e0, ring.entries, reference, generation)
    requires forall k :: |h0| <= k < |ring.history| ==> NotSwitched(e0, ring.history[k], reference, generation)
    modifies ring
    ensures ring.entries == LastOf(old(ring.entries), old(ring.history), ring.history)
    ensures old(ring.history) <= ring.history
    ensures h0 <= ring.history && ring.failures >= old(ring.failures)
    ensures NotSwitched(e0, ring.entries, reference, generation)
    ensures forall k :: |h0| <= k < |ring.history| ==> NotSwitched(e0, ring.history[k], reference, generation)
    ensures ring.failures == old(ring.failures) && Fresh(e0, reference, generation) && OnlyChunks(old(ring.entries), reference, generation, chunks) ==>
      ring.entries == e0
  {
    ghost var mid := ring.entries;
    DeleteChunks(ring, reference, generation, chunks);
    ShrunkNotSwitched(e0, mid, ring.entries, reference, generation);
    forall k | |old(ring.history)| <= k < |ring.history| ensures NotSwitched(e0, ring.history[k], reference, generation) {
      ShrunkNotSwitched(e0, mid, ring.history[k], reference, generation);
    }
    if ring.failures == old(ring.failures) && Fresh(e0, reference, generation) && OnlyChunks(mid, reference, generation, chunks) {
      AllCleared(e0, mid, ring.entries, reference, generation, chunks);
    }
  }

  lemma NoneLeft(mid: Keyring, e: Keyring, reference: string, generation: string, chunks: nat, name: string)
    requires Shrunk(mid, e, reference, generation) && OnlyChunks(mid, reference, generation, chunks)
    requires forall i :: 0 <= i < chunks ==> ChunkName(reference, generation, i) !in e
    requires ChunkPrefix(reference, generation) <= name
    ensures name !in e
  {
    if name in mid { var i :| 0 <= i < chunks && name == ChunkName(reference, generation, i); }
  }

  /** With every new chunk gone the keyring is what it was. */
  lemma AllCleared(e0: Keyring, mid: Keyring, e: Keyring, reference: string, generation: string, chunks: nat)
    requires Fresh(e0, reference, generation) && NotSwitched(e0, e, reference, generation) && Shrunk(mid, e, reference, generation)
    requires OnlyChunks(mid, reference, generation, chunks)
    requires forall i :: 0 <= i < chunks ==> ChunkName(reference, generation, i) !in e
    ensures e == e0
  {
    forall name ensures SameEntry(e0, e, name) {
      if ChunkPrefix(reference, generation) <= name { NoneLeft(mid, e, reference, generation, chunks, name); }
    }
    assert forall name :: name in e <==> name in e0 by { forall name ensures name in e <==> name in e0 { assert SameEntry(e0, e, name); } }
    forall name | name in e ensures e[name] == e0[name] { assert SameEntry(e0, e, name); }
  }

  /** Removing the chunks of the previous generation after the switch. */
  method DropPrevious(ring: KeyringService, ghost e0: Keyring, reference: string, generation: string,
                      ghost data: seq<byte>, previous: Index)
    requires ValidNames(reference, generation) && Plain(previous.generation) && previous.generation != generation
    requires Switched(e0, ring.entries, reference, generation, data)
    requires OnlyChunks(ring.entries, reference, generation, ChunkCount(|data|))
    modifies ring
    ensures ring.entries == LastOf(old(ring.entries), old(ring.history), ring.history)
    ensures old(ring.history) <= ring.history && ring.failures >= old(ring.failures)
    ensures Switched(e0, ring.entries, reference, generation, data)
    ensures OnlyChunks(ring.entries, reference, generation, ChunkCount(|data|))
    ensures forall k :: |old(ring.history)| <= k < |ring.history| ==> Switched(e0, ring.history[k], reference, generation, data)
    ensures ring.failures == old(ring.failures) ==>
      forall i :: 0 <= i < previous.chunks ==> ChunkName(reference, previous.generation, i) !in ring.entries
  {
    ghost var mid := ring.entries;
    DeleteChunks(ring, reference, previous.generation, previous.chunks);
    ShrunkSwitched(e0, mid, ring.entries, reference, generation, data, previous.generation);
    forall k | |old(ring.history)| <= k < |ring.history| ensures Switched(e0, ring.history[k], reference, generation, data) {
      ShrunkSwitched(e0, mid, ring.history[k], reference, generation, data, previous.generation);
    }
  }

  /** Put of the Windows backend. `generation` is the random generation, assumed unused so far. */
  method Put(ring: KeyringService, reference: string, data: seq<byte>, generation: string) returns (ok: bool)
    requires ValidNames(reference, generation) && Fresh(ring.entries, reference, generation)
    modifies ring
    ensures ring.entries == LastOf(old(ring.entries), old(ring.history), ring.history)
    ensures old(ring.history) <= ring.history && ring.failures >= old(ring.failures)
    ensures PutTrace(old(ring.entries), Trace(old(ring.entries), old(ring.history), ring.history), reference, generation, data)
    ensures ok ==> Switched(old(ring.entries), ring.entries, reference, generation, data)
    ensures !ok ==> NotSwitched(old(ring.entries), ring.entries, reference, generation)
    ensures Read(ring.entries, reference) == if ok then Written(data) else Read(old(ring.entries), reference)
    ensures !ok && ring.failures == old(ring.failures) + 1 ==> ring.entries == old(ring.entries)
    ensures ring.failures == old(ring.failures) ==>
      ok && OnlyChunks(ring.entries, reference, generation, ChunkCount(|data|)) && ChunksGone(old(ring.entries), ring.entries, reference)
    ensures ring.failures == old(ring.failures) && |data| <= MAX_CHUNKS * CHUNK_BYTES ==>
              (Tidy(old(ring.entries), reference) ==> Tidy(ring.entries, reference))
  {
    ghost var e0, h0 := ring.entries, ring.history;
    var previous, failed := LoadIndexFrom(ring, reference);
    ok := WriteChunks(ring, reference, data, generation);
    if !ok {
      NotSwitchedRead(e0, ring.entries, reference, generation);
      NotSwitchedTrace(e0, h0, ring.history, reference, generation, data);
      return;
    }
    ok := SwitchIndex(ring, reference, data, generation, if failed then Missing else previous, e0, h0);
    if ok && ring.failures == old(ring.failures) && Tidy(e0, reference) && |data| <= MAX_CHUNKS * CHUNK_BYTES {
      TidyAfterPut(e0, ring.entries, reference, generation, data);
    }
  }

  /** The second half of Put: with all chunks in place the index is overwritten, which is the switch, and the previous chunks go. */
  method SwitchIndex(ring: KeyringService, reference: string, data: seq<byte>, generation: string, previous: Loaded,
                     ghost e0: Keyring, ghost h0: seq<Keyring>) returns (ok: bool)
    requires ValidNames(reference, generation) && Fresh(e0, reference, generation) && h0 <= ring.history
    requires NotSwitched(e0, ring.entries, reference, generation) && ring.entries == LastOf(e0, h0, ring.history)
    requires forall k :: |h0| <= k < |ring.history| ==> NotSwitched(e0, ring.history[k], reference, generation)
    requires HoldsChunks(ring.entries, reference, generation, data, ChunkCount(|data|))
    requires OnlyChunks(ring.entries, reference, generation, ChunkCount(|data|))
    requires previous == LoadIndex(e0, reference) || previous == Missing
    modifies ring
    ensures h0 <= ring.history && ring.failures >= old(ring.failures) && ring.entries == LastOf(e0, h0, ring.history)
    ensures PutTrace(e0, Trace(e0, h0, ring.history), reference, generation, data)
    ensures ok ==> Switched(e0, ring.entries, reference, generation, data)
    ensures !ok ==> NotSwitched(e0, ring.entries, reference, generation)
    ensures Read(ring.entries, reference) == if ok then Written(data) else Read(e0, reference)
    ensures !ok ==> ring.failures > old(ring.failures)
    ensures !ok && ring.failures == old(ring.failures) + 1 ==> ring.entries == e0
    ensures ring.failures == old(ring.failures) ==> ok && OnlyChunks(ring.entries, reference, generation, ChunkCount(|data|))
    ensures ring.failures == old(ring.failures) && previous == LoadIndex(e0, reference) ==> ChunksGone(e0, ring.entries, reference)
  {
    ghost var mid, m := ring.entries, |ring.history|;
    Switching(e0, mid, reference, generation, data);
    ok := ring.Set(IndexName(reference), IndexText(IndexValue(Index(generation, ChunkCount(|data|)))));
    if !ok {
      ClearChunks(ring, e0, h0, reference, generation, ChunkCount(|data|));
      NotSwitchedRead(e0, ring.entries, reference, generation);
      NotSwitchedTrace(e0, h0, ring.history, reference, generation, data);
      return;
    }
    IndexNameApart(reference, generation);
    assert OnlyChunks(ring.entries, reference, generation, ChunkCount(|data|));
    if previous.Found? { DropPrevious(ring, e0, reference, generation, data, previous.index); }
    SwitchedRead(e0, ring.entries, reference, generation, data);
    SwitchedTrace(e0, h0, ring.history, reference, generation, data, m);
  }

  datatype DeleteResult = Deleted | WasMissing | DeleteFailed

  method Delete(ring: KeyringService, reference: string) returns (result: DeleteResult)
    requires Plain(reference)
    modifies ring
    ensures ring.entries == LastOf(old(ring.entries), old(ring.history), ring.history)
    ensures old(ring.history) <= ring.history && ring.failures >= old(ring.failures)
    ensures DuringDelete(old(ring.entries), ring.entries, reference)
    ensures DeleteTrace(old(ring.entries), Trace(old(ring.entries), old(ring.history), ring.history), reference)
    ensures result != DeleteFailed ==> Read(ring.entries, reference) == NotFound
    ensures Read(ring.entries, reference) in {Read(old(ring.entries), reference), NotFound}
    ensures result != DeleteFailed ==> IndexName(reference) !in ring.entries
    ensures ring.failures == old(ring.failures) ==> ChunksGone(old(ring.entries), ring.entries, reference)
    ensures ring.failures == old(ring.failures) && !LoadIndex(old(ring.entries), reference).Invalid? ==> result != DeleteFailed
    ensures ring.failures == old(ring.failures) && Tidy(old(ring.entries), reference) ==>
              result != DeleteFailed && Tidy(ring.entries, reference)
  {
    ghost var e0, h0 := ring.entries, ring.history;
    var loaded, failed := LoadIndexFrom(ring, reference);
    if failed || loaded == Invalid { return DeleteFailed; }
    if loaded == Missing { return WasMissing; }
    var index := loaded.index;
    DeleteChunks(ring, reference, index.generation, index.chunks);
    ghost var mid := ring.entries;
    assert SameEntry(e0, mid, IndexName(reference)) by { IndexNameApart(reference, index.generation); }
    ShrunkTrace(e0, h0, ring.history, reference, index.generation);
    ShrunkDeletes(e0, mid, reference, index.generation);
    var removed, missing := ring.Delete(IndexName(reference));
    if removed { IndexGone(e0, mid, reference); }
    DeleteTraced(e0, h0, ring.history, reference);
    ReadDuringDelete(e0, ring.entries, Still(ring.entries), reference);
    result := if removed then Deleted else DeleteFailed;
    if removed && ring.failures == old(ring.failures) && Tidy(e0, reference) {
      TidyAfterDelete(e0, ring.entries, reference);
    }
  }

  lemma ShrunkTrace(e0: Keyring, h0: seq<Keyring>, h: seq<Keyring>, reference: string, generation: string)
    requires Plain(reference) && Plain(generation) && h0 <= h
    requires forall k :: |h0| <= k < |h| ==> Shrunk(e0, h[k], reference, generation)
    ensures forall k :: |h0| <= k < |h| ==> DuringDelete(e0, h[k], reference)
  {
    forall k | |h0| <= k < |h| ensures DuringDelete(e0, h[k], reference) {
      ShrunkDeletes(e0, h[k], reference, generation);
    }
  }

  lemma DeleteTraced(e0: Keyring, h0: seq<Keyring>, h: seq<Keyring>, reference: string)
    requires h0 <= h && forall k :: |h0| <= k < |h| ==> DuringDelete(e0, h[k], reference)
    ensures DeleteTrace(e0, Trace(e0, h0, h), reference)
  {
    var states := Trace(e0, h0, h);
    forall k | 0 < k < |states| ensures states[k] == h[|h0| + k - 1] {}
  }

  lemma IndexGone(e0: Keyring, a: Keyring, reference: string)
    requires Plain(reference) && DuringDelete(e0, a, reference)
    ensures DuringDelete(e0, a - {IndexName(reference)}, reference)
  {
    OwnerOfIndex(reference);
    var b := a - {IndexName(reference)};
    forall name ensures (Owner(name) != reference ==> SameEntry(e0, b, name)) && (name in b ==> SameEntry(e0, b, name)) {
      if name != IndexName(reference) {
        assert name in b <==> name in a;
        assert Owner(name) != reference ==> SameEntry(e0, a, name);
      }
    }
  }

  lemma ShrunkDeletes(a: Keyring, b: Keyring, reference: string, generation: string)
    requires Plain(reference) && Plain(generation) && Shrunk(a, b, reference, generation)
    ensures DuringDelete(a, b, reference)
  {
    forall name | Owner(name) != reference ensures SameEntry(a, b, name) {
      if ChunkPrefix(reference, generation) <= name { OwnerOfChunk(reference, generation, name); }
    }
  }

  lemma TidyAfterDelete(e0: Keyring, e: Keyring, reference: string)
    requires Tidy(e0, reference) && DuringDelete(e0, e, reference) && IndexName(reference) !in e && ChunksGone(e0, e, reference)
    ensures Tidy(e, reference)
  {
    forall name | name in e ensures Owner(name) != reference {
      assert SameEntry(e0, e, name);
    }
  }

  /** Get of the Windows backend: an interrupted keyring call is an error, anything else is Read. */
  method Get(ring: KeyringService, reference: string) returns (got: Got, failed: bool)
    modifies ring`failures
    ensures !failed ==> got == Read(ring.entries, reference)
    ensures failed <==> ring.failures > old(ring.failures)
  {
    var loaded, down := LoadIndexFrom(ring, reference);
    if down { return Broken, true; }
    if loaded == Missing { return NotFound, false; }
    if loaded == Invalid { return Broken, false; }
    var index := loaded.index;
    var data: seq<byte> := [];
    for part := 0 to index.chunks
      invariant ring.failures == old(ring.failures)
      invariant ReadChunks(Still(ring.entries), reference, index, 0) ==
        Prefixed(data, ReadChunks(Still(ring.entries), reference, index, part))
    {
      var answer := ring.Get(ChunkName(reference, index.generation, part));
      if answer == Failed { return Broken, true; }
      if answer == Absent { return NotFound, false; }
      if answer.value.IndexText? { return Broken, false; }
      var rest := ReadChunks(Still(ring.entries), reference, index, part + 1);
      if rest.Data? { assert (data + answer.value.bytes) + rest.bytes == data + (answer.value.bytes + rest.bytes); }
      data := data + answer.value.bytes;
    }
    assert data + [] == data;
    return Data(data), false;
  }

  function Prefixed(data: seq<byte>, rest: Got): (r: Got)
  {
    if rest.Data? then Data(data + rest.bytes) else rest
  }

  // ---- the store as a map ----

  /** At every state of a Put, and so wherever the process stops, the reference reads as the whole
      old value or the whole new one, and every other reference reads as before. */
  lemma PutIsAtomic(e0: Keyring, states: seq<Keyring>, reference: string, generation: string, data: seq<byte>,
                    k: nat, other: string)
    requires ValidNames(reference, generation) && Fresh(e0, reference, generation)
    requires PutTrace(e0, states, reference, generation, data) && k < |states|
    requires Plain(other) && other != reference
    ensures Read(states[k], reference) == Read(e0, reference) || Read(states[k], reference) == Written(data)
    ensures Read(states[k], other) == Read(e0, other)
  {
    var m :| 0 <= m <= |states| && SwitchedAt(e0, states, reference, generation, data, m);
    var e := states[k];
    if k < m {
      NotSwitchedRead(e0, e, reference, generation);
      forall name | Owner(name) == other ensures SameEntry(e0, e, name) {
        if ChunkPrefix(reference, generation) <= name { OwnerOfChunk(reference, generation, name); }
      }
    } else {
      SwitchedRead(e0, e, reference, generation, data);
    }
    OtherRead(e0, e, other);
  }

  lemma DeleteIsAtomic(e0: Keyring, states: seq<Keyring>, reference: string, k: nat, other: string)
    requires Plain(reference) && DeleteTrace(e0, states, reference) && k < |states|
    requires Plain(other) && other != reference
    ensures Read(states[k], reference) == Read(e0, reference) || Read(states[k], reference) == NotFound
    ensures Read(states[k], other) == Read(e0, other)
  {
    ReadDuringDelete(e0, states[k], Still(states[k]), reference);
    OtherRead(e0, states[k], other);
  }

  /** How a call ended: it succeeded, it reported an error, or the process stopped during it. */
  datatype End = Succeeded | Reported | Stopped

  /** One call in a run: the states it passed through, the one where it ended, and whether every keyring call in it worked. */
  datatype Call =
    | PutCall(reference: string, generation: string, data: seq<byte>, states: seq<Keyring>, stop: nat, end: End, clean: bool)
    | DeleteCall(reference: string, states: seq<Keyring>, stop: nat, end: End, clean: bool)

  ghost predicate ValidCall(e: Keyring, call: Call)
  {
    Plain(call.reference) && call.stop < |call.states|
    && match call
       case PutCall(reference, generation, data, states, stop, end, clean) =>
         ValidNames(reference, generation) && Fresh(e, reference, generation)
         && PutTrace(e, states, reference, generation, data)
         && (end == Succeeded ==> Switched(e, states[stop], reference, generation, data))
         && (end == Reported ==> NotSwitched(e, states[stop], reference, generation))
         && (clean ==> end == Succeeded && OnlyChunks(states[stop], reference, generation, ChunkCount(|data|))
                       && ChunksGone(e, states[stop], reference))
       case DeleteCall(reference, states, stop, end, clean) =>
         DeleteTrace(e, states, reference) && (end == Succeeded ==> IndexName(reference) !in states[stop])
         && (clean ==> ChunksGone(e, states[stop], reference) && (LoadIndex(e, reference).Invalid? || end == Succeeded))
  }

  ghost predicate ValidRun(e: Keyring, calls: seq<Call>)
    decreases |calls|
  {
    calls == [] || (ValidCall(e, calls[0]) && ValidRun(calls[0].states[calls[0].stop], calls[1..]))
  }

  ghost function EndOf(e: Keyring, calls: seq<Call>): Keyring
    requires ValidRun(e, calls)
    decreases |calls|
  {
    if calls == [] then e else EndOf(calls[0].states[calls[0].stop], calls[1..])
  }

  /** What a call may leave of the values the plain map could hold: a Put that succeeded sets the value, one that reported an error
      leaves it, one that was stopped may have done either; a Delete that did not succeed may have deleted. */
  function Leaves(values: set<Got>, call: Call): set<Got>
  {
    match call
    case PutCall(_, _, data, _, _, end, _) =>
      if end == Succeeded then {Written(data)} else if end == Reported then values else values + {Written(data)}
    case DeleteCall(_, _, _, end, _) => if end == Succeeded then {NotFound} else values + {NotFound}
  }

  function Possible(values: set<Got>, calls: seq<Call>, reference: string): (r: set<Got>)
    decreases |calls|
  {
    if calls == [] then values
    else Possible(if calls[0].reference == reference then Leaves(values, calls[0]) else values, calls[1..], reference)
  }

  /** Over every run of Puts and Deletes with failing calls, stops and restarts anywhere, what a
      reference reads as is a value the plain map could hold. */
  lemma {:induction false} RunRefinesMap(e: Keyring, calls: seq<Call>, reference: string, values: set<Got>)
    requires ValidRun(e, calls) && Plain(reference) && Read(e, reference) in values
    ensures Read(EndOf(e, calls), reference) in Possible(values, calls, reference)
    decreases |calls|
  {
    if calls != [] {
      CallEffect(e, calls[0], reference, values);
      RunRefinesMap(calls[0].states[calls[0].stop], calls[1..], reference,
                    if calls[0].reference == reference then Leaves(values, calls[0]) else values);
    }
  }

  lemma CallEffect(e: Keyring, call: Call, reference: string, values: set<Got>)
    requires ValidCall(e, call) && Plain(reference) && Read(e, reference) in values
    ensures Read(call.states[call.stop], reference) in if call.reference == reference then Leaves(values, call) else values
  {
    var other := if call.reference == reference then reference + "'" else reference;
    match call {
      case PutCall(r, generation, data, states, stop, end, _) =>
        PutIsAtomic(e, states, r, generation, data, stop, other);
        if end == Succeeded { SwitchedRead(e, states[stop], r, generation, data); }
        if end == Reported { NotSwitchedRead(e, states[stop], r, generation); }
      case DeleteCall(r, states, stop, _, _) =>
        DeleteIsAtomic(e, states, r, stop, other);
    }
  }

  // ---- nothing is left behind ----

  /** Entries of a reference and its index stay the same when another reference is worked on. */
  lemma OtherStaysTidy(e0: Keyring, e: Keyring, reference: string)
    requires Plain(reference) && Tidy(e0, reference) && forall name :: Owner(name) == reference ==> SameEntry(e0, e, name)
    ensures Tidy(e, reference)
  {
    OwnerOfIndex(reference);
    assert SameEntry(e0, e, IndexName(reference));
    assert LoadIndex(e, reference) == LoadIndex(e0, reference);
    if LoadIndex(e0, reference).Found? {
      var index := LoadIndex(e0, reference).index;
      forall i | 0 <= i < index.chunks ensures ChunkName(reference, index.generation, i) in e {
        OwnerOfChunk(reference, index.generation, ChunkName(reference, index.generation, i));
      }
    }
  }

  /** A call without failures leaves every reference tidy, its own and the others. */
  lemma CallStaysTidy(e: Keyring, call: Call, reference: string)
    requires ValidCall(e, call) && call.clean && Plain(reference) && Tidy(e, reference)
    requires call.PutCall? ==> |call.data| <= MAX_CHUNKS * CHUNK_BYTES
    ensures Tidy(call.states[call.stop], reference)
  {
    var after := call.states[call.stop];
    if call.reference != reference {
      forall name | Owner(name) == reference ensures SameEntry(e, after, name) {}
      OtherStaysTidy(e, after, reference);
    } else if call.PutCall? {
      TidyAfterPut(e, after, reference, call.generation, call.data);
    } else {
      TidyAfterDelete(e, after, reference);
    }
  }

  /** After any run with no failing calls and values within the limit, the entries of every reference are exactly its index and
      its chunks, if they were so at the start. */
  lemma {:induction false} RunStaysTidy(e: Keyring, calls: seq<Call>, reference: string)
    requires ValidRun(e, calls) && Plain(reference) && Tidy(e, reference)
    requires forall i :: 0 <= i < |calls| ==> calls[i].clean
    requires forall i :: 0 <= i < |calls| && calls[i].PutCall? ==> |calls[i].data| <= MAX_CHUNKS * CHUNK_BYTES
    ensures Tidy(EndOf(e, calls), reference)
    decreases |calls|
  {
    if calls != [] {
      CallStaysTidy(e, calls[0], reference);
      RunStaysTidy(calls[0].states[calls[0].stop], calls[1..], reference);
    }
  }

  /** In an empty keyring every reference is tidy. */
  lemma EmptyIsTidy(reference: string)
    ensures Tidy(map[], reference)
  {
  }

  // ---- the backend produces such runs ----

  datatype Op = PutOp(reference: string, generation: string, data: seq<byte>) | DeleteOp(reference: string)

  /** The generations drawn are new to the keyring and to each other. */
  ghost predicate Drawn(e: Keyring, ops: seq<Op>)
  {
    (forall i :: 0 <= i < |ops| ==>
       if ops[i].PutOp? then ValidNames(ops[i].reference, ops[i].generation) && Fresh(e, ops[i].reference, ops[i].generation)
       else Plain(ops[i].reference))
    && forall i, j :: 0 <= i < j < |ops| && ops[i].PutOp? && ops[j].PutOp? ==>
         ops[i].reference != ops[j].reference || ops[i].generation != ops[j].generation
  }

  ghost predicate Does(call: Call, op: Op)
  {
    call.reference == op.reference
    && match op
       case PutOp(_, generation, data) => call.PutCall? && call.generation == generation && call.data == data
       case DeleteOp(_) => call.DeleteCall?
  }

  /** A generation that a call does not use stays new. */
  lemma FreshAfterCall(e: Keyring, call: Call, reference: string, generation: string)
    requires ValidCall(e, call) && ValidNames(reference, generation) && Fresh(e, reference, generation)
    requires call.PutCall? ==> call.reference != reference || call.generation != generation
    ensures Fresh(call.states[call.stop], reference, generation)
  {
    var after := call.states[call.stop];
    forall name | name in after ensures !(ChunkPrefix(reference, generation) <= name) {
      if ChunkPrefix(reference, generation) <= name {
        OwnerOfChunk(reference, generation, name);
        NameIsOld(e, call, name, generation);
      }
    }
    IndexIsOldOrNew(e, call, reference);
  }

  /** Only a Put adds entries: chunks of its generation and its index. */
  lemma NameIsOld(e: Keyring, call: Call, name: string, generation: string)
    requires ValidCall(e, call) && name in call.states[call.stop] && ':' in After(name, ':')
    requires Before(After(name, ':'), ':') == generation
    requires call.PutCall? ==> call.reference != Owner(name) || call.generation != generation
    ensures name in e
  {
    if call.PutCall? {
      var r, g, after := call.reference, call.generation, call.states[call.stop];
      if ChunkPrefix(r, g) <= name { OwnerOfChunk(r, g, name); }
      OwnerOfIndex(r);
      CallState(e, call);
      assert NotSwitched(e, after, r, g) ==> SameEntry(e, after, name);
    } else {
      assert DuringDelete(e, call.states[call.stop], call.reference);
    }
  }

  lemma CallState(e: Keyring, call: Call)
    requires ValidCall(e, call) && call.PutCall?
    ensures DuringPut(e, call.states[call.stop], call.reference, call.generation, call.data)
  {
  }

  lemma IndexIsOldOrNew(e: Keyring, call: Call, reference: string)
    requires ValidCall(e, call) && Plain(reference)
    ensures var loaded := LoadIndex(call.states[call.stop], reference);
      loaded.Found? && loaded != LoadIndex(e, reference) ==>
        call.PutCall? && call.reference == reference && loaded.index.generation == call.generation
  {
    var after := call.states[call.stop];
    OwnerOfIndex(reference);
    match call {
      case PutCall(r, g, data, states, stop, _, _) =>
        CallState(e, call);
        IndexNameApart(r, g);
        if NotSwitched(e, after, r, g) {
          if ChunkPrefix(r, g) <= IndexName(reference) { OwnerOfChunk(r, g, IndexName(reference)); }
          assert SameEntry(e, after, IndexName(reference));
        } else if r == reference {
          SwitchedIndex(after, r, g, data);
        } else {
          assert SameEntry(e, after, IndexName(reference));
        }
      case DeleteCall(r, states, stop, _, _) =>
        assert DuringDelete(e, after, r);
    }
  }

  lemma {:induction false} RunSnoc(e: Keyring, calls: seq<Call>, call: Call)
    requires ValidRun(e, calls) && ValidCall(EndOf(e, calls), call)
    ensures ValidRun(e, calls + [call]) && EndOf(e, calls + [call]) == call.states[call.stop]
    decreases |calls|
  {
    if calls == [] {
      assert calls + [call] == [call] && [call][1..] == [];
    } else {
      RunSnoc(calls[0].states[calls[0].stop], calls[1..], call);
      assert (calls + [call])[1..] == calls[1..] + [call] && (calls + [call])[0] == calls[0];
    }
  }

  method PerformOne(ring: KeyringService, op: Op) returns (ghost call: Call)
    requires Plain(op.reference)
    requires op.PutOp? ==> ValidNames(op.reference, op.generation) && Fresh(ring.entries, op.reference, op.generation)
    modifies ring
    ensures ValidCall(old(ring.entries), call) && call.states[call.stop] == ring.entries && Does(call, op) && call.end != Stopped
    ensures ring.failures >= old(ring.failures) && (ring.failures == old(ring.failures) ==> call.clean)
  {
    ghost var e0, h0, f0 := ring.entries, ring.history, ring.failures;
    match op {
      case PutOp(reference, generation, data) =>
        var ok := Put(ring, reference, data, generation);
        ghost var states := Trace(e0, h0, ring.history);
        call := PutCall(reference, generation, data, states, |states| - 1, if ok then Succeeded else Reported, ring.failures == f0);
      case DeleteOp(reference) =>
        var result := Delete(ring, reference);
        ghost var states := Trace(e0, h0, ring.history);
        call := DeleteCall(reference, states, |states| - 1, if result == DeleteFailed then Reported else Succeeded, ring.failures == f0);
    }
  }

  lemma FreshForRest(e: Keyring, call: Call, ops: seq<Op>, i: nat)
    requires i < |ops| && ValidCall(e, call) && Does(call, ops[i])
    requires forall j :: i <= j < |ops| && ops[j].PutOp? ==>
      ValidNames(ops[j].reference, ops[j].generation) && Fresh(e, ops[j].reference, ops[j].generation)
    requires forall j :: i < j < |ops| && ops[i].PutOp? && ops[j].PutOp? ==>
      ops[i].reference != ops[j].reference || ops[i].generation != ops[j].generation
    ensures forall j :: i < j < |ops| && ops[j].PutOp? ==> Fresh(call.states[call.stop], ops[j].reference, ops[j].generation)
  {
    forall j | i < j < |ops| && ops[j].PutOp? ensures Fresh(call.states[call.stop], ops[j].reference, ops[j].generation) {
      FreshAfterCall(e, call, ops[j].reference, ops[j].generation);
    }
  }

  /** Whatever the keyring answers, a sequence of operations is a run in the above sense, so that RunRefinesMap and RunStaysTidy
      apply to it. */
  method Perform(ring: KeyringService, ops: seq<Op>) returns (ghost calls: seq<Call>)
    requires Drawn(ring.entries, ops)
    modifies ring
    ensures |calls| == |ops| && forall i :: 0 <= i < |ops| ==> Does(calls[i], ops[i]) && calls[i].end != Stopped
    ensures ValidRun(old(ring.entries), calls) && EndOf(old(ring.entries), calls) == ring.entries
    ensures ring.failures == old(ring.failures) ==> forall i :: 0 <= i < |calls| ==> calls[i].clean
  {
    ghost var e0 := ring.entries;
    calls := [];
    for i := 0 to |ops|
      invariant |calls| == i && forall j :: 0 <= j < i ==> Does(calls[j], ops[j]) && calls[j].end != Stopped
      invariant ValidRun(e0, calls) && EndOf(e0, calls) == ring.entries
      invariant ring.failures >= old(ring.failures)
      invariant ring.failures == old(ring.failures) ==> forall j :: 0 <= j < i ==> calls[j].clean
      invariant forall j :: i <= j < |ops| && ops[j].PutOp? ==> Fresh(ring.entries, ops[j].reference, ops[j].generation)
    {
      ghost var e := ring.entries;
      ghost var call := PerformOne(ring, ops[i]);
      RunSnoc(e0, calls, call);
      FreshForRest(e, call, ops, i);
      calls := calls + [call];
    }
  }

  /** A Put beyond the chunk limit reports success, drops the old value and leaves nothing readable;
      up to the limit the written value is what is read. */
  lemma PutReadable(e0: Keyring, e: Keyring, reference: string, generation: string, data: seq<byte>)
    requires ValidNames(reference, generation) && Switched(e0, e, reference, generation, data)
    ensures Read(e, reference) == Data(data) <==> |data| <= 1_228_800
    ensures |data| > 1_228_800 ==> Read(e, reference) == Broken
  {
    SwitchedRead(e0, e, reference, generation, data);
  }
}
