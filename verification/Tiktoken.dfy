/**
 The tokenizer around byte-pair encoding: decoder tables, encoding of whole
 texts and decoding of token ids.
 */
module Tiktoken {
  import opened Wrappers
  import opened Bytes
  import opened BytePair

  type Decoder = map<int, seq<byte>>

  datatype TokenError = UnknownToken(id: int) | UnknownPiece(bytes: seq<byte>) | NeverReturns

  // ---------------------------------------------------------------- decoder tables

  // The bytes of the first entry that carries the id.
  function FirstWith(entries: seq<(seq<byte>, int32)>, id: int): Option<seq<byte>> {
    if entries == [] then None
    else
      var rest := FirstWith(entries[..|entries| - 1], id);
      var last := entries[|entries| - 1];
      if rest.Some? then rest else if last.1 == id then Some(last.0) else None
  }

  method BuildDecoder(entries: seq<(seq<byte>, int32)>) returns (dec: Decoder)
    ensures forall id :: id in dec <==> FirstWith(entries, id).Some?
    ensures forall id :: id in dec ==> dec[id] == FirstWith(entries, id).value
  {
    dec := map[];
    var i := 0;
    assert entries[..0] == [];
    while i < |entries|
      invariant 0 <= i <= |entries|
      invariant forall id :: id in dec <==> FirstWith(entries[..i], id).Some?
      invariant forall id :: id in dec ==> dec[id] == FirstWith(entries[..i], id).value
    {
      assert entries[..i + 1][..i] == entries[..i];
      if entries[i].1 !in dec {
        dec := dec[entries[i].1 as int := entries[i].0];
      }
      i := i + 1;
    }
    assert entries[..|entries|] == entries;
  }

  // The table holds the vocabulary's entries, each key once.
  ghost predicate Lists(entries: seq<(seq<byte>, int32)>, ranks: Ranks) {
    && (forall e :: e in entries ==> e.0 in ranks && ranks[e.0] == e.1)
    && (forall k :: k in ranks ==> (k, ranks[k]) in entries)
  }

  ghost predicate Injective(ranks: Ranks) {
    forall k, l :: k in ranks && l in ranks && ranks[k] == ranks[l] ==> k == l
  }

  // Every vocabulary key decodes to itself.
  ghost predicate Inverts(entries: seq<(seq<byte>, int32)>, ranks: Ranks) {
    forall k :: k in ranks ==> FirstWith(entries, ranks[k]) == Some(k)
  }

  lemma {:induction false} FirstIsEntry(entries: seq<(seq<byte>, int32)>, id: int32)
    ensures FirstWith(entries, id).Some? ==> (FirstWith(entries, id).value, id) in entries
    ensures FirstWith(entries, id).None? ==> forall e :: e in entries ==> e.1 != id
  {
    if entries != [] {
      FirstIsEntry(entries[..|entries| - 1], id);
      assert entries == entries[..|entries| - 1] + [entries[|entries| - 1]];
    }
  }

  // Entry i is the first with the id.
  ghost predicate FirstAt(entries: seq<(seq<byte>, int32)>, id: int, i: nat) {
    i < |entries| && entries[i].1 as int == id && forall j :: 0 <= j < i ==> entries[j].1 as int != id
  }

  // Of several entries with one id the first one is kept.
  lemma {:induction false} FirstKept(entries: seq<(seq<byte>, int32)>, id: int, i: nat)
    requires FirstAt(entries, id, i)
    ensures FirstWith(entries, id) == Some(entries[i].0)
    decreases |entries|
  {
    var front := entries[..|entries| - 1];
    if i < |front| {
      FirstKept(front, id, i);
    } else {
      NoneWith(front, id);
    }
  }

  lemma {:induction false} NoneWith(entries: seq<(seq<byte>, int32)>, id: int)
    requires forall j :: 0 <= j < |entries| ==> entries[j].1 as int != id
    ensures FirstWith(entries, id).None?
  {
    if entries != [] {
      NoneWith(entries[..|entries| - 1], id);
    }
  }

  // The decoder inverts the encoder exactly when no id is used twice.
  lemma InvertsIffInjective(entries: seq<(seq<byte>, int32)>, ranks: Ranks)
    requires Lists(entries, ranks)
    ensures Inverts(entries, ranks) <==> Injective(ranks)
  {
    if Injective(ranks) {
      forall k | k in ranks ensures FirstWith(entries, ranks[k]) == Some(k) {
        FirstIsEntry(entries, ranks[k]);
        assert (k, ranks[k]) in entries;
      }
    }
  }

  // The table built from the vocabulary reads every key back exactly when no
  // id is used twice.
  lemma BuiltTableReads(entries: seq<(seq<byte>, int32)>, ranks: Ranks, t: Tables)
    requires Lists(entries, ranks)
    requires forall id :: id in t.decoder <==> FirstWith(entries, id).Some?
    requires forall id :: id in t.decoder ==> t.decoder[id] == FirstWith(entries, id).value
    ensures Reads(t, ranks) <==> Injective(ranks)
  {
    InvertsIffInjective(entries, ranks);
    forall k | k in ranks ensures ranks[k] as int in t.decoder {
      FirstIsEntry(entries, ranks[k]);
      assert (k, ranks[k]) in entries;
    }
    if Reads(t, ranks) {
      forall k | k in ranks ensures FirstWith(entries, ranks[k]) == Some(k) {
        assert ranks[k] as int in t.decoder && t.decoder[ranks[k]] == k;
      }
    }
  }

  // ---------------------------------------------------------------- decoding

  datatype Tables = Tables(decoder: Decoder, special: Decoder)

  // Ordinary tokens first, special tokens second.
  function DecodeOne(t: Tables, id: int): Result<seq<byte>, TokenError> {
    if id in t.decoder then Ok(t.decoder[id])
    else if id in t.special then Ok(t.special[id])
    else Err(UnknownToken(id))
  }

  function Decoded(t: Tables, ids: seq<int>): Result<seq<byte>, TokenError> {
    if ids == [] then Ok([])
    else
      var rest := Decoded(t, ids[..|ids| - 1]);
      if rest.Err? then rest
      else
        var one := DecodeOne(t, ids[|ids| - 1]);
        if one.Err? then one else Ok(rest.value + one.value)
  }

  method DecodeNative(t: Tables, ids: seq<int>) returns (r: Result<seq<byte>, TokenError>)
    ensures r == Decoded(t, ids)
  {
    var out: seq<byte> := [];
    var i := 0;
    assert ids[..0] == [];
    while i < |ids|
      invariant 0 <= i <= |ids|
      invariant Decoded(t, ids[..i]) == Ok(out)
    {
      assert ids[..i + 1][..i] == ids[..i];
      var bytes: seq<byte>;
      if ids[i] in t.decoder {
        bytes := t.decoder[ids[i]];
      } else if ids[i] in t.special {
        bytes := t.special[ids[i]];
      } else {
        DecodeErrStays(t, ids, i + 1);
        return Err(UnknownToken(ids[i]));
      }
      out := out + bytes;
      i := i + 1;
    }
    assert ids[..|ids|] == ids;
    return Ok(out);
  }

  lemma {:induction false} DecodeErrStays(t: Tables, ids: seq<int>, n: nat)
    requires n <= |ids| && Decoded(t, ids[..n]).Err?
    ensures Decoded(t, ids) == Decoded(t, ids[..n])
    decreases |ids|
  {
    if n < |ids| {
      assert ids[..|ids| - 1][..n] == ids[..n];
      DecodeErrStays(t, ids[..|ids| - 1], n);
    } else {
      assert ids[..n] == ids;
    }
  }

  // Decoding fails exactly on an id that is in neither table.
  lemma {:induction false} DecodesKnownIds(t: Tables, ids: seq<int>)
    ensures Decoded(t, ids).Ok? <==> forall id :: id in ids ==> id in t.decoder || id in t.special
    decreases |ids|
  {
    if ids != [] {
      var front := ids[..|ids| - 1];
      DecodesKnownIds(t, front);
      assert ids == front + [ids[|ids| - 1]];
    }
  }

  lemma {:induction false} DecodeConcat(t: Tables, a: seq<int>, b: seq<int>)
    requires Decoded(t, a).Ok? && Decoded(t, b).Ok?
    ensures Decoded(t, a + b) == Ok(Decoded(t, a).value + Decoded(t, b).value)
    decreases |b|
  {
    if b == [] {
      assert a + b == a;
      assert Decoded(t, a).value + [] == Decoded(t, a).value;
    } else {
      var b0 := b[..|b| - 1];
      assert (a + b)[..|a + b| - 1] == a + b0;
      assert Decoded(t, b0).Ok?;
      DecodeConcat(t, a, b0);
      assert (a + b)[|a + b| - 1] == b[|b| - 1];
      var va, vb, one := Decoded(t, a).value, Decoded(t, b0).value, DecodeOne(t, b[|b| - 1]).value;
      assert (va + vb) + one == va + (vb + one);
    }
  }

  // ---------------------------------------------------------------- pieces

  // The decoder holds every vocabulary entry under its id.
  ghost predicate Reads(t: Tables, ranks: Ranks) {
    forall k :: k in ranks ==> ranks[k] as int in t.decoder && t.decoder[ranks[k]] == k
  }

  lemma {:induction false} PartsDecode(t: Tables, piece: seq<byte>, ranks: Ranks, bounds: seq<nat>, n: nat)
    requires Cuts(bounds, |piece|) && n < |bounds| && Reads(t, ranks)
    requires TokensOf(piece, ranks, bounds, n).Ok?
    ensures bounds[n] <= |piece|
    ensures Decoded(t, TokensOf(piece, ranks, bounds, n).value) == Ok(piece[..bounds[n]])
    decreases n
  {
    assert n < |bounds| - 1 ==> bounds[n] < bounds[|bounds| - 1];
    if n > 0 {
      assert bounds[n - 1] < bounds[n];
      PartsDecode(t, piece, ranks, bounds, n - 1);
      var rest := TokensOf(piece, ranks, bounds, n - 1).value;
      var part := piece[bounds[n - 1]..bounds[n]];
      var ids := rest + [ranks[part] as int];
      assert ids[..|ids| - 1] == rest;
      assert piece[..bounds[n - 1]] + part == piece[..bounds[n]];
    }
  }

  // Decoding the ids of a piece gives the piece back.
  lemma PieceRoundTrip(t: Tables, piece: seq<byte>, ranks: Ranks)
    requires Reads(t, ranks) && Encoded(piece, ranks).Ok?
    ensures Decoded(t, Encoded(piece, ranks).value) == Ok(piece)
  {
    MergedCuts(piece, ranks, Singles(|piece|));
    var bounds := Merged(piece, ranks, Singles(|piece|));
    PartsDecode(t, piece, ranks, bounds, |bounds| - 1);
    assert piece[..|piece|] == piece;
  }

  // A whole-piece match wins over merging.
  function SinglePiece(text: seq<byte>, ranks: Ranks): Result<seq<int>, BpeError>
  {
    if text in ranks then Ok([ranks[text] as int]) else Encoded(text, ranks)
  }

  method EncodeSinglePiece(text: seq<byte>, ranks: Ranks) returns (r: Result<seq<int>, BpeError>)
    ensures r == SinglePiece(text, ranks)
    ensures text in ranks ==> r == Ok([ranks[text] as int])
    ensures text !in ranks ==> r == Encoded(text, ranks)
  {
    if text in ranks {
      return Ok([ranks[text]]);
    }
    r := BytePairEncode(text, ranks);
  }

  lemma SinglePieceRoundTrip(t: Tables, text: seq<byte>, ranks: Ranks)
    requires Reads(t, ranks)
    ensures text in ranks || (LoopsEnd(|text|) && forall b :: b in text ==> [b] in ranks) ==> SinglePiece(text, ranks).Ok?
    ensures SinglePiece(text, ranks).Ok? ==> Decoded(t, SinglePiece(text, ranks).value) == Ok(text)
  {
    hide Encoded, Reads;
    if text in ranks {
      DecodeSingle(t, text, ranks);
    } else {
      EncodedNeverMisses(text, ranks);
      if Encoded(text, ranks).Ok? {
        PieceRoundTrip(t, text, ranks);
      }
    }
  }

  lemma DecodeSingle(t: Tables, key: seq<byte>, ranks: Ranks)
    requires key in ranks && Reads(t, ranks)
    ensures Decoded(t, [ranks[key] as int]) == Ok(key)
  {
    var ids := [ranks[key] as int];
    assert ids[..|ids| - 1] == [];
    assert [] + key == key;
  }

  // ---------------------------------------------------------------- texts

  // What the two regular expressions cut a text into, in order: text neither
  // of them matches, pieces, and special tokens.
  datatype Chunk = Gap(text: seq<byte>) | Piece(text: seq<byte>) | Special(text: seq<byte>)

  function TextOf(chunks: seq<Chunk>): seq<byte> {
    if chunks == [] then [] else TextOf(chunks[..|chunks| - 1]) + chunks[|chunks| - 1].text
  }

  // The text without its gaps.
  function Kept(chunks: seq<Chunk>): seq<byte> {
    if chunks == [] then []
    else
      var last := chunks[|chunks| - 1];
      Kept(chunks[..|chunks| - 1]) + if last.Gap? then [] else last.text
  }

  function PieceError(e: BpeError): TokenError {
    match e
    case MissingPiece(bytes) => UnknownPiece(bytes)
    case Endless => NeverReturns
  }

  function ChunkTokens(c: Chunk, ranks: Ranks, special: Ranks): Result<seq<int>, TokenError> {
    match c
    case Gap(_) => Ok([])
    case Piece(text) =>
      var r := SinglePiece(text, ranks);
      if r.Ok? then Ok(r.value) else Err(PieceError(r.error))
    case Special(text) => if text in special then Ok([special[text] as int]) else Err(UnknownPiece(text))
  }

  function Tokens(chunks: seq<Chunk>, ranks: Ranks, special: Ranks): Result<seq<int>, TokenError> {
    if chunks == [] then Ok([])
    else
      var rest := Tokens(chunks[..|chunks| - 1], ranks, special);
      if rest.Err? then rest
      else
        var one := ChunkTokens(chunks[|chunks| - 1], ranks, special);
        if one.Err? then one else Ok(rest.value + one.value)
  }

  // How many trailing tokens belong to the last piece; none after a special.
  function LastPieceLen(chunks: seq<Chunk>, ranks: Ranks, special: Ranks): nat {
    if chunks == [] then 0
    else
      var last := chunks[|chunks| - 1];
      match last
      case Gap(_) => LastPieceLen(chunks[..|chunks| - 1], ranks, special)
      case Special(_) => 0
      case Piece(_) =>
        var one := ChunkTokens(last, ranks, special);
        if one.Ok? then |one.value| else 0
  }

  // ---------------------------------------------------------------- cutting a text

  // Where an expression matches next in what is left of a text, and how much.
  type Finder = seq<byte> -> Option<(nat, nat)>

  ghost predicate Finds(find: Finder) {
    forall t :: find(t).Some? ==> find(t).value.1 > 0 && find(t).value.0 + find(t).value.1 <= |t|
  }

  // Pieces and what lies between them.
  function PieceChunks(find: Finder, t: seq<byte>): seq<Chunk>
    requires Finds(find)
    decreases |t|
  {
    match find(t)
    case None => [Gap(t)]
    case Some(m) => [Gap(t[..m.0]), Piece(t[m.0..m.0 + m.1])] + PieceChunks(find, t[m.0 + m.1..])
  }

  // The first allowed special token from `start` on.
  function AllowedAt(find: Finder, allowed: Ranks, t: seq<byte>, start: nat): (r: Option<(nat, nat)>)
    requires Finds(find) && start <= |t|
    ensures r.Some? ==> start <= r.value.0 && r.value.1 > 0 && r.value.0 + r.value.1 <= |t|
    decreases |t| - start
  {
    match find(t[start..])
    case None => None
    case Some(m) =>
      if t[start + m.0..start + m.0 + m.1] in allowed then Some((start + m.0, m.1))
      else AllowedAt(find, allowed, t, start + m.0 + m.1)
  }

  // Behind the last special token, when none from `start` on is allowed.
  function Behind(find: Finder, t: seq<byte>, start: nat): (d: nat)
    requires Finds(find) && start <= |t|
    ensures start <= d <= |t|
    decreases |t| - start
  {
    match find(t[start..])
    case None => start
    case Some(m) => Behind(find, t, start + m.0 + m.1)
  }

  // Special tokens cut the text; pieces are looked for in between. Special tokens
  // that are not allowed are ordinary text up to the last allowed one; behind
  // it, everything up to the last of them is dropped.
  function ChunksOf(special: Finder, find: Finder, allowed: Ranks, t: seq<byte>): seq<Chunk>
    requires Finds(special) && Finds(find)
    decreases |t|
  {
    match AllowedAt(special, allowed, t, 0)
    case Some(m) =>
      PieceChunks(find, t[..m.0]) + [Special(t[m.0..m.0 + m.1])] + ChunksOf(special, find, allowed, t[m.0 + m.1..])
    case None =>
      var d := Behind(special, t, 0);
      [Gap(t[..d])] + PieceChunks(find, t[d..])
  }

  lemma {:induction false} TextConcat(a: seq<Chunk>, b: seq<Chunk>)
    ensures TextOf(a + b) == TextOf(a) + TextOf(b)
    decreases |b|
  {
    if b == [] {
      assert a + b == a;
    } else {
      assert (a + b)[..|a + b| - 1] == a + b[..|b| - 1];
      TextConcat(a, b[..|b| - 1]);
    }
  }

  lemma TextOne(c: Chunk)
    ensures TextOf([c]) == c.text
  {
    assert [c][..0] == [];
  }

  lemma {:induction false} PiecesText(find: Finder, t: seq<byte>)
    requires Finds(find)
    ensures TextOf(PieceChunks(find, t)) == t
    decreases |t|
  {
    hide TextOf;
    if find(t).None? {
      TextOne(Gap(t));
    } else {
      var m := find(t).value;
      var g, p, rest := Gap(t[..m.0]), Piece(t[m.0..m.0 + m.1]), t[m.0 + m.1..];
      PiecesText(find, rest);
      TextConcat([g, p], PieceChunks(find, rest));
      assert [g, p] == [g] + [p];
      TextConcat([g], [p]);
      TextOne(g);
      TextOne(p);
      assert t == t[..m.0] + t[m.0..m.0 + m.1] + rest;
    }
  }

  lemma ChunksFound(special: Finder, find: Finder, allowed: Ranks, t: seq<byte>)
    requires Finds(special) && Finds(find) && AllowedAt(special, allowed, t, 0).Some?
    ensures var m := AllowedAt(special, allowed, t, 0).value;
            ChunksOf(special, find, allowed, t)
            == PieceChunks(find, t[..m.0]) + [Special(t[m.0..m.0 + m.1])] + ChunksOf(special, find, allowed, t[m.0 + m.1..])
  {
    hide PieceChunks, AllowedAt, Behind;
  }

  lemma ChunksNotFound(special: Finder, find: Finder, allowed: Ranks, t: seq<byte>)
    requires Finds(special) && Finds(find) && AllowedAt(special, allowed, t, 0).None?
    ensures var d := Behind(special, t, 0);
            ChunksOf(special, find, allowed, t) == [Gap(t[..d])] + PieceChunks(find, t[d..])
  {
    hide PieceChunks, AllowedAt, Behind;
  }

  lemma TextAround(before: seq<Chunk>, c: Chunk, rest: seq<Chunk>)
    ensures TextOf(before + [c] + rest) == TextOf(before) + c.text + TextOf(rest)
  {
    hide TextOf;
    TextOne(c);
    TextConcat(before, [c]);
    TextConcat(before + [c], rest);
  }

  lemma ThreeParts(t: seq<byte>, i: nat, j: nat)
    requires i <= j <= |t|
    ensures t[..i] + t[i..j] + t[j..] == t
  {}

  // The chunks are the text, in order.
  lemma {:induction false} ChunksText(special: Finder, find: Finder, allowed: Ranks, t: seq<byte>)
    requires Finds(special) && Finds(find)
    ensures TextOf(ChunksOf(special, find, allowed, t)) == t
    decreases |t|
  {
    hide TextOf, PieceChunks, AllowedAt, Behind, ChunksOf;
    var r := AllowedAt(special, allowed, t, 0);
    if r.Some? {
      var m := r.value;
      var before, s, rest := PieceChunks(find, t[..m.0]), Special(t[m.0..m.0 + m.1]), t[m.0 + m.1..];
      ChunksText(special, find, allowed, rest);
      ChunksFound(special, find, allowed, t);
      PiecesText(find, t[..m.0]);
      TextAround(before, s, ChunksOf(special, find, allowed, rest));
      ThreeParts(t, m.0, m.0 + m.1);
    } else {
      var d := Behind(special, t, 0);
      ChunksNotFound(special, find, allowed, t);
      PiecesText(find, t[d..]);
      TextOne(Gap(t[..d]));
      TextConcat([Gap(t[..d])], PieceChunks(find, t[d..]));
      assert t == t[..d] + t[d..];
    }
  }

  // Nothing is dropped when every special token that is found is allowed, as it
  // is for the tokens the expression was made from.
  lemma AllAllowed(special: Finder, allowed: Ranks, t: seq<byte>)
    requires Finds(special)
    requires forall u :: special(u).Some? ==> u[special(u).value.0..special(u).value.0 + special(u).value.1] in allowed
    ensures AllowedAt(special, allowed, t, 0).None? ==> Behind(special, t, 0) == 0
  {
    assert t[0..] == t;
  }

  // The hit behind `from` ends at `to` and is no allowed token.
  ghost predicate SkipsTo(special: Finder, allowed: Ranks, t: seq<byte>, from: nat, to: nat) {
    && from <= |t| && special(t[from..]).Some?
    && var m := special(t[from..]).value;
       to == from + m.0 + m.1 <= |t| && t[from + m.0..to] !in allowed
  }

  // Places the search starts at: the first, and behind every hit that is no
  // allowed token.
  ghost predicate Skipped(special: Finder, allowed: Ranks, t: seq<byte>, starts: seq<nat>) {
    && starts != [] && starts[0] == 0
    && forall k :: 0 <= k < |starts| - 1 ==> SkipsTo(special, allowed, t, starts[k], starts[k + 1])
  }

  // Nothing is found behind `at`, or what is found there is allowed.
  ghost predicate Stops(special: Finder, allowed: Ranks, t: seq<byte>, at: nat,
                        found: Option<seq<byte>>, before: seq<byte>, rest: seq<byte>) {
    at <= |t|
    && match special(t[at..])
       case None => found.None? && before == rest == t[at..]
       case Some(m) =>
         && at + m.0 + m.1 <= |t| && t[at + m.0..at + m.0 + m.1] in allowed
         && found == Some(t[at + m.0..at + m.0 + m.1]) && before == t[..at + m.0] && rest == t[at + m.0 + m.1..]
  }

  lemma SearchStep(special: Finder, allowed: Ranks, t: seq<byte>, at: nat)
    requires Finds(special) && at <= |t|
    ensures match special(t[at..])
            case None => AllowedAt(special, allowed, t, at) == None && Behind(special, t, at) == at
            case Some(m) =>
              && at + m.0 + m.1 <= |t|
              && (if t[at + m.0..at + m.0 + m.1] in allowed then AllowedAt(special, allowed, t, at) == Some((at + m.0, m.1))
                  else AllowedAt(special, allowed, t, at) == AllowedAt(special, allowed, t, at + m.0 + m.1))
              && Behind(special, t, at) == Behind(special, t, at + m.0 + m.1)
  {}

  lemma SkippedMore(special: Finder, allowed: Ranks, t: seq<byte>, starts: seq<nat>, to: nat)
    requires Skipped(special, allowed, t, starts) && SkipsTo(special, allowed, t, starts[|starts| - 1], to)
    ensures Skipped(special, allowed, t, starts + [to])
  {
    hide SkipsTo;
    var more := starts + [to];
    forall k | 0 <= k < |more| - 1 ensures SkipsTo(special, allowed, t, more[k], more[k + 1]) {
      if k < |starts| - 1 {
        assert SkipsTo(special, allowed, t, starts[k], starts[k + 1]);
      }
    }
  }

  // The search for the next allowed special token: the text before it, and what
  // is left behind it.
  method SplitAllowed(special: Finder, allowed: Ranks, t: seq<byte>)
    returns (found: Option<seq<byte>>, before: seq<byte>, rest: seq<byte>)
    requires Finds(special)
    ensures match AllowedAt(special, allowed, t, 0)
            case Some(m) => found == Some(t[m.0..m.0 + m.1]) && before == t[..m.0] && rest == t[m.0 + m.1..]
            case None => found.None? && before == rest == t[Behind(special, t, 0)..]
    ensures exists starts :: Skipped(special, allowed, t, starts)
                             && Stops(special, allowed, t, starts[|starts| - 1], found, before, rest)
  {
    hide AllowedAt, Behind, Skipped;
    var at: nat := 0;
    ghost var starts: seq<nat> := [0];
    assert Skipped(special, allowed, t, starts) by {
      NoneSkipped(special, allowed, t);
    }
    while true
      invariant at <= |t| && starts != [] && Skipped(special, allowed, t, starts) && starts[|starts| - 1] == at
      invariant AllowedAt(special, allowed, t, at) == AllowedAt(special, allowed, t, 0)
      invariant AllowedAt(special, allowed, t, at).None? ==> Behind(special, t, at) == Behind(special, t, 0)
      decreases |t| - at
    {
      var m := special(t[at..]);
      SearchStep(special, allowed, t, at);
      if m.None? {
        assert Stops(special, allowed, t, at, None, t[at..], t[at..]);
        return None, t[at..], t[at..];
      }
      var start, length := at + m.value.0, m.value.1;
      if t[start..start + length] in allowed {
        assert Stops(special, allowed, t, at, Some(t[start..start + length]), t[..start], t[start + length..]);
        return Some(t[start..start + length]), t[..start], t[start + length..];
      }
      SkippedMore(special, allowed, t, starts, start + length);
      starts := starts + [start + length];
      at := start + length;
    }
  }

  lemma NoneSkipped(special: Finder, allowed: Ranks, t: seq<byte>)
    ensures Skipped(special, allowed, t, [0])
  {}

  // A token found at once and allowed is the one that is returned.
  lemma FirstHitWins(special: Finder, allowed: Ranks, t: seq<byte>, starts: seq<nat>,
                     found: Option<seq<byte>>, before: seq<byte>, rest: seq<byte>)
    requires Finds(special) && Skipped(special, allowed, t, starts)
    requires Stops(special, allowed, t, starts[|starts| - 1], found, before, rest)
    ensures special(t).None? ==> found.None? && before == rest == t
    ensures special(t).Some? ==>
              var m := special(t).value;
              && m.0 + m.1 <= |t|
              && (t[m.0..m.0 + m.1] in allowed ==>
                    found == Some(t[m.0..m.0 + m.1]) && before == t[..m.0] && rest == t[m.0 + m.1..])
  {
    assert t[0..] == t;
    if |starts| > 1 {
      assert SkipsTo(special, allowed, t, starts[0], starts[1]);
    }
  }

  // The pieces of one stretch of text.
  method EncodePieces(find: Finder, t: seq<byte>, ranks: Ranks, special: Ranks, out: seq<int>, lastLen: nat,
                      ghost done: seq<Chunk>)
    returns (r: Result<seq<int>, TokenError>, len: nat)
    requires Finds(find) && Tokens(done, ranks, special) == Ok(out) && lastLen == LastPieceLen(done, ranks, special)
    ensures r == Tokens(done + PieceChunks(find, t), ranks, special)
    ensures r.Ok? ==> len == LastPieceLen(done + PieceChunks(find, t), ranks, special)
  {
    hide SinglePiece, Tokens, LastPieceLen, ChunkTokens, PieceChunks;
    var tokens := out;
    len := lastLen;
    var sub := t;
    ghost var now := done;
    while find(sub).Some?
      invariant Tokens(now, ranks, special) == Ok(tokens) && len == LastPieceLen(now, ranks, special)
      invariant now + PieceChunks(find, sub) == done + PieceChunks(find, t)
      decreases |sub|
    {
      var m := find(sub).value;
      var piece, gap := sub[m.0..m.0 + m.1], sub[..m.0];
      var ids := EncodeSinglePiece(piece, ranks);
      GapAdds(now, gap, ranks, special, tokens, len);
      PieceAdds(now + [Gap(gap)], piece, ranks, special, tokens);
      NextPiece(find, sub, now);
      sub := sub[m.0 + m.1..];
      ghost var next := now + [Gap(gap)] + [Piece(piece)];
      if ids.Err? {
        ErrStays(next, PieceChunks(find, sub), ranks, special);
        return Err(PieceError(ids.error)), 0;
      }
      now := next;
      tokens := tokens + ids.value;
      len := |ids.value|;
    }
    GapAdds(now, sub, ranks, special, tokens, len);
    LastGap(find, sub);
    return Ok(tokens), len;
  }

  lemma NextPiece(find: Finder, t: seq<byte>, done: seq<Chunk>)
    requires Finds(find) && find(t).Some?
    ensures var m := find(t).value;
            done + PieceChunks(find, t)
            == done + [Gap(t[..m.0])] + [Piece(t[m.0..m.0 + m.1])] + PieceChunks(find, t[m.0 + m.1..])
  {
    var m := find(t).value;
    var g, p, rest := Gap(t[..m.0]), Piece(t[m.0..m.0 + m.1]), PieceChunks(find, t[m.0 + m.1..]);
    assert done + ([g, p] + rest) == done + [g] + [p] + rest;
  }

  lemma LastGap(find: Finder, t: seq<byte>)
    requires Finds(find) && find(t).None?
    ensures PieceChunks(find, t) == [Gap(t)]
  {}

  // What fails on the first chunks fails.
  lemma ErrStays(done: seq<Chunk>, rest: seq<Chunk>, ranks: Ranks, special: Ranks)
    requires Tokens(done, ranks, special).Err?
    ensures Tokens(done + rest, ranks, special) == Tokens(done, ranks, special)
  {
    hide Tokens;
    assert (done + rest)[..|done|] == done;
    TokensErrStays(done + rest, ranks, special, |done|);
  }

  lemma GapAdds(done: seq<Chunk>, gap: seq<byte>, ranks: Ranks, special: Ranks, out: seq<int>, len: nat)
    requires Tokens(done, ranks, special) == Ok(out) && len == LastPieceLen(done, ranks, special)
    ensures Tokens(done + [Gap(gap)], ranks, special) == Ok(out)
    ensures len == LastPieceLen(done + [Gap(gap)], ranks, special)
  {
    assert (done + [Gap(gap)])[..|done|] == done;
    assert out + [] == out;
  }

  lemma PieceAdds(done: seq<Chunk>, piece: seq<byte>, ranks: Ranks, special: Ranks, out: seq<int>)
    requires Tokens(done, ranks, special) == Ok(out)
    ensures var ids := SinglePiece(piece, ranks);
            if ids.Ok? then Tokens(done + [Piece(piece)], ranks, special) == Ok(out + ids.value)
                            && LastPieceLen(done + [Piece(piece)], ranks, special) == |ids.value|
            else Tokens(done + [Piece(piece)], ranks, special) == Err(PieceError(ids.error))
  {
    hide SinglePiece;
    assert (done + [Piece(piece)])[..|done|] == done;
  }

  lemma SpecialAdds(done: seq<Chunk>, text: seq<byte>, ranks: Ranks, special: Ranks, out: seq<int>)
    requires Tokens(done, ranks, special) == Ok(out)
    ensures if text in special then Tokens(done + [Special(text)], ranks, special) == Ok(out + [special[text] as int])
                                    && LastPieceLen(done + [Special(text)], ranks, special) == 0
            else Tokens(done + [Special(text)], ranks, special) == Err(UnknownPiece(text))
  {
    hide SinglePiece;
    assert (done + [Special(text)])[..|done|] == done;
  }

  method EncodeNative(special: Finder, find: Finder, text: seq<byte>, ranks: Ranks, allowed: Ranks, specials: Ranks)
    returns (r: Result<seq<int>, TokenError>, lastLen: nat)
    requires Finds(special) && Finds(find)
    ensures r == Tokens(ChunksOf(special, find, allowed, text), ranks, specials)
    ensures r.Ok? ==> lastLen == LastPieceLen(ChunksOf(special, find, allowed, text), ranks, specials)
  {
    hide Tokens, LastPieceLen, PieceChunks, AllowedAt, Behind, ChunksOf;
    var out: seq<int> := [];
    lastLen := 0;
    var input := text;
    ghost var done: seq<Chunk> := [];
    ghost var all := ChunksOf(special, find, allowed, text);
    NothingYet(ranks, specials);
    assert done + all == all;
    while true
      invariant Tokens(done, ranks, specials) == Ok(out) && lastLen == LastPieceLen(done, ranks, specials)
      invariant done + ChunksOf(special, find, allowed, input) == all
      decreases |input|
    {
      var found, before, rest := SplitAllowed(special, allowed, input);
      if found.None? {
        ghost var gap := Gap(input[..Behind(special, input, 0)]);
        ChunksNotFound(special, find, allowed, input);
        GapAdds(done, gap.text, ranks, specials, out, lastLen);
        r, lastLen := EncodePieces(find, before, ranks, specials, out, lastLen, done + [gap]);
        Regroup(done, [gap], PieceChunks(find, before), []);
        return;
      }
      ChunksFound(special, find, allowed, input);
      var tokens;
      tokens, lastLen := EncodePieces(find, before, ranks, specials, out, lastLen, done);
      ghost var mid := done + PieceChunks(find, before);
      ghost var tail := ChunksOf(special, find, allowed, rest);
      Regroup(done, PieceChunks(find, before), [Special(found.value)], tail);
      if tokens.Err? {
        ErrStays(mid, [Special(found.value)] + tail, ranks, specials);
        return tokens, 0;
      }
      SpecialAdds(mid, found.value, ranks, specials, tokens.value);
      done := mid + [Special(found.value)];
      if found.value !in specials {
        ErrStays(done, tail, ranks, specials);
        return Err(UnknownPiece(found.value)), 0;
      }
      out := tokens.value + [specials[found.value]];
      lastLen := 0;
      input := rest;
    }
  }

  // One encoding after the other; the first failure is the failure of both.
  function Then(a: Result<seq<int>, TokenError>, b: Result<seq<int>, TokenError>): Result<seq<int>, TokenError> {
    if a.Err? then a else if b.Err? then b else Ok(a.value + b.value)
  }

  lemma {:induction false} TokensConcat(a: seq<Chunk>, b: seq<Chunk>, ranks: Ranks, specials: Ranks)
    ensures Tokens(a + b, ranks, specials) == Then(Tokens(a, ranks, specials), Tokens(b, ranks, specials))
    decreases |b|
  {
    hide ChunkTokens;
    if b == [] {
      assert a + b == a;
      assert Tokens(a, ranks, specials).Ok? ==>
               Tokens(a, ranks, specials).value + [] == Tokens(a, ranks, specials).value;
    } else {
      var b0, last := b[..|b| - 1], b[|b| - 1];
      assert (a + b)[..|a + b| - 1] == a + b0 && (a + b)[|a + b| - 1] == last;
      TokensConcat(a, b0, ranks, specials);
      var ra, rb, rl := Tokens(a, ranks, specials), Tokens(b0, ranks, specials), ChunkTokens(last, ranks, specials);
      if ra.Ok? && rb.Ok? && rl.Ok? {
        assert (ra.value + rb.value) + rl.value == ra.value + (rb.value + rl.value);
      }
    }
  }

  lemma TokensOne(c: Chunk, ranks: Ranks, specials: Ranks)
    ensures Tokens([c], ranks, specials) == ChunkTokens(c, ranks, specials)
  {
    hide ChunkTokens;
    assert [c][..0] == [];
    var r := ChunkTokens(c, ranks, specials);
    assert r.Ok? ==> [] + r.value == r.value;
  }

  // A stretch of text is encoded match by match: a match that is a key by its
  // id, any other by merging; what lies between the matches is skipped.
  lemma PiecesInOrder(find: Finder, t: seq<byte>, ranks: Ranks, specials: Ranks)
    requires Finds(find)
    ensures Tokens(PieceChunks(find, t), ranks, specials) ==
            match find(t)
            case None => Ok([])
            case Some(m) =>
              var piece := t[m.0..m.0 + m.1];
              Then(if piece in ranks then Ok([ranks[piece] as int])
                   else if Encoded(piece, ranks).Ok? then Ok(Encoded(piece, ranks).value)
                   else Err(PieceError(Encoded(piece, ranks).error)),
                   Tokens(PieceChunks(find, t[m.0 + m.1..]), ranks, specials))
  {
    hide Tokens, Encoded;
    match find(t) {
      case None =>
        TokensOne(Gap(t), ranks, specials);
      case Some(m) =>
        var g, p, rest := Gap(t[..m.0]), Piece(t[m.0..m.0 + m.1]), PieceChunks(find, t[m.0 + m.1..]);
        TokensOne(g, ranks, specials);
        TokensOne(p, ranks, specials);
        TokensConcat([g], [p], ranks, specials);
        TokensConcat([g] + [p], rest, ranks, specials);
        assert PieceChunks(find, t) == [g] + [p] + rest;
        var one := ChunkTokens(p, ranks, specials);
        assert one.Ok? ==> [] + one.value == one.value;
    }
  }

  lemma FirstStart(special: Finder, allowed: Ranks, t: seq<byte>, starts: seq<nat>)
    requires Skipped(special, allowed, t, starts)
    ensures starts != [] && starts[0] == 0
  {}

  // Where the search stops is what the two functions above compute.
  lemma {:induction false} SearchIs(special: Finder, allowed: Ranks, t: seq<byte>, starts: seq<nat>, k: nat)
    requires Finds(special) && Skipped(special, allowed, t, starts) && k < |starts|
    requires starts[|starts| - 1] <= |t|
    ensures starts[k] <= |t|
    ensures AllowedAt(special, allowed, t, starts[k]) == AllowedAt(special, allowed, t, starts[|starts| - 1])
    ensures AllowedAt(special, allowed, t, starts[k]).None? ==>
              Behind(special, t, starts[k]) == Behind(special, t, starts[|starts| - 1])
    decreases |starts| - k
  {
    if k + 1 < |starts| {
      assert SkipsTo(special, allowed, t, starts[k], starts[k + 1]);
      SearchStep(special, allowed, t, starts[k]);
      SearchIs(special, allowed, t, starts, k + 1);
    }
  }

  // What encoding the text gives when the search stops at `at`.
  ghost predicate EncodedFrom(special: Finder, find: Finder, allowed: Ranks, t: seq<byte>, ranks: Ranks, specials: Ranks,
                              at: nat)
    requires Finds(special) && Finds(find) && at <= |t|
  {
    var all := Tokens(ChunksOf(special, find, allowed, t), ranks, specials);
    match special(t[at..])
    case None => all == Tokens(PieceChunks(find, t[at..]), ranks, specials)
    case Some(m) =>
      var token := t[at + m.0..at + m.0 + m.1];
      token in allowed ==>
        all == Then(Then(Tokens(PieceChunks(find, t[..at + m.0]), ranks, specials),
                         if token in specials then Ok([specials[token] as int]) else Err(UnknownPiece(token))),
                    Tokens(ChunksOf(special, find, allowed, t[at + m.0 + m.1..]), ranks, specials))
  }

  lemma NoToken(special: Finder, find: Finder, allowed: Ranks, t: seq<byte>, ranks: Ranks, specials: Ranks)
    requires Finds(special) && Finds(find) && AllowedAt(special, allowed, t, 0).None?
    ensures Tokens(ChunksOf(special, find, allowed, t), ranks, specials)
         == Tokens(PieceChunks(find, t[Behind(special, t, 0)..]), ranks, specials)
  {
    hide Tokens, PieceChunks, ChunksOf, AllowedAt, Behind;
    var at := Behind(special, t, 0);
    ChunksNotFound(special, find, allowed, t);
    TokensOne(Gap(t[..at]), ranks, specials);
    TokensConcat([Gap(t[..at])], PieceChunks(find, t[at..]), ranks, specials);
    var r := Tokens(PieceChunks(find, t[at..]), ranks, specials);
    assert r.Ok? ==> [] + r.value == r.value;
  }

  lemma OneToken(special: Finder, find: Finder, allowed: Ranks, t: seq<byte>, ranks: Ranks, specials: Ranks, m: (nat, nat))
    requires Finds(special) && Finds(find) && AllowedAt(special, allowed, t, 0) == Some(m)
    ensures var token := t[m.0..m.0 + m.1];
            Tokens(ChunksOf(special, find, allowed, t), ranks, specials)
            == Then(Then(Tokens(PieceChunks(find, t[..m.0]), ranks, specials),
                         if token in specials then Ok([specials[token] as int]) else Err(UnknownPiece(token))),
                    Tokens(ChunksOf(special, find, allowed, t[m.0 + m.1..]), ranks, specials))
  {
    hide Tokens, PieceChunks, ChunksOf, AllowedAt, Behind;
    var token := t[m.0..m.0 + m.1];
    var before, rest := PieceChunks(find, t[..m.0]), ChunksOf(special, find, allowed, t[m.0 + m.1..]);
    ChunksFound(special, find, allowed, t);
    TokensOne(Special(token), ranks, specials);
    TokensConcat(before, [Special(token)], ranks, specials);
    TokensConcat(before + [Special(token)], rest, ranks, specials);
  }

  // A whole text: the text up to the first allowed token, its id, and then the
  // text behind it in the same way. Tokens that are not allowed on the way are
  // ordinary text; without an allowed one only the text behind them is encoded.
  lemma EncodesInOrder(special: Finder, find: Finder, allowed: Ranks, t: seq<byte>, ranks: Ranks, specials: Ranks,
                       starts: seq<nat>, at: nat)
    requires Finds(special) && Finds(find) && Skipped(special, allowed, t, starts)
    requires starts != [] && at == starts[|starts| - 1] <= |t|
    ensures EncodedFrom(special, find, allowed, t, ranks, specials, at)
  {
    hide Tokens, PieceChunks, ChunksOf, AllowedAt, Behind, Skipped;
    FirstStart(special, allowed, t, starts);
    SearchIs(special, allowed, t, starts, 0);
    SearchStep(special, allowed, t, at);
    match special(t[at..]) {
      case None =>
        NoToken(special, find, allowed, t, ranks, specials);
      case Some(m) =>
        if t[at + m.0..at + m.0 + m.1] in allowed {
          OneToken(special, find, allowed, t, ranks, specials, (at + m.0, m.1));
        }
    }
  }

  lemma Regroup(a: seq<Chunk>, b: seq<Chunk>, c: seq<Chunk>, d: seq<Chunk>)
    ensures a + (b + c + d) == a + b + c + d == a + b + (c + d)
    ensures a + (b + c) == a + b + c
  {}

  lemma NothingYet(ranks: Ranks, special: Ranks)
    ensures Tokens([], ranks, special) == Ok([]) && LastPieceLen([], ranks, special) == 0
  {}

  lemma {:induction false} TokensErrStays(chunks: seq<Chunk>, ranks: Ranks, special: Ranks, n: nat)
    requires n <= |chunks| && Tokens(chunks[..n], ranks, special).Err?
    ensures Tokens(chunks, ranks, special) == Tokens(chunks[..n], ranks, special)
    decreases |chunks|
  {
    hide ChunkTokens;
    if n < |chunks| {
      assert chunks[..|chunks| - 1][..n] == chunks[..n];
      TokensErrStays(chunks[..|chunks| - 1], ranks, special, n);
    } else {
      assert chunks[..n] == chunks;
    }
  }

  // Special ids are read from the second table, so they may not collide with
  // ordinary ids.
  ghost predicate ReadsSpecial(t: Tables, special: Ranks) {
    forall k :: k in special ==>
      special[k] as int !in t.decoder && special[k] as int in t.special && t.special[special[k]] == k
  }

  lemma ChunkRoundTrip(t: Tables, c: Chunk, ranks: Ranks, special: Ranks)
    requires Reads(t, ranks) && ReadsSpecial(t, special)
    requires ChunkTokens(c, ranks, special).Ok?
    ensures Decoded(t, ChunkTokens(c, ranks, special).value) == Ok(if c.Gap? then [] else c.text)
  {
    match c
    case Gap(_) =>
    case Piece(text) => SinglePieceRoundTrip(t, text, ranks);
    case Special(text) =>
      var ids := [special[text] as int];
      assert ids[..|ids| - 1] == [];
      assert [] + text == text;
  }

  // Encoding and decoding a text loses exactly its gaps.
  lemma {:induction false} TextRoundTrip(t: Tables, chunks: seq<Chunk>, ranks: Ranks, special: Ranks)
    requires Reads(t, ranks) && ReadsSpecial(t, special)
    requires Tokens(chunks, ranks, special).Ok?
    ensures Decoded(t, Tokens(chunks, ranks, special).value) == Ok(Kept(chunks))
    decreases |chunks|
  {
    hide ChunkTokens, Reads, ReadsSpecial;
    if chunks != [] {
      var front, last := chunks[..|chunks| - 1], chunks[|chunks| - 1];
      TextRoundTrip(t, front, ranks, special);
      ChunkRoundTrip(t, last, ranks, special);
      DecodeConcat(t, Tokens(front, ranks, special).value, ChunkTokens(last, ranks, special).value);
    }
  }

  lemma {:induction false} KeptLength(chunks: seq<Chunk>)
    ensures |Kept(chunks)| <= |TextOf(chunks)|
    ensures |Kept(chunks)| == |TextOf(chunks)| <==> forall i :: 0 <= i < |chunks| && chunks[i].Gap? ==> chunks[i].text == []
  {
    if chunks != [] {
      var front, last := chunks[..|chunks| - 1], chunks[|chunks| - 1];
      KeptLength(front);
      assert forall i :: 0 <= i < |front| ==> front[i] == chunks[i];
    }
  }

  // The text itself comes back if and only if the pattern left no gap.
  lemma {:induction false} LosslessIffNoGap(chunks: seq<Chunk>)
    ensures Kept(chunks) == TextOf(chunks) <==> forall i :: 0 <= i < |chunks| && chunks[i].Gap? ==> chunks[i].text == []
  {
    KeptLength(chunks);
    if forall i :: 0 <= i < |chunks| && chunks[i].Gap? ==> chunks[i].text == [] {
      NoGapKeepsAll(chunks);
    }
  }

  lemma {:induction false} NoGapKeepsAll(chunks: seq<Chunk>)
    requires forall i :: 0 <= i < |chunks| && chunks[i].Gap? ==> chunks[i].text == []
    ensures Kept(chunks) == TextOf(chunks)
  {
    if chunks != [] {
      NoGapKeepsAll(chunks[..|chunks| - 1]);
    }
  }
}
