/**
 The byte layout fed to SHA-256 (mental-poker/src/hash.rs, `ds_hash`) and the context
 binding of card_proof.rs: distinct inputs never share a pre-image.
 */
module HashPreimage {
  import opened Outcomes
  import opened CardProof

  type Bytes = seq<nat>

  const U64: nat := 0x1_0000_0000_0000_0000

  /** Little-endian, `k` bytes. */
  function Le(n: nat, k: nat): (b: Bytes)
    ensures |b| == k
  {
    if k == 0 then [] else [n % 256] + Le(n / 256, k - 1)
  }

  function Power256(k: nat): nat { if k == 0 then 1 else 256 * Power256(k - 1) }

  lemma Widths()
    ensures Power256(2) == 0x1_0000 && Power256(4) == 0x1_0000_0000 && Power256(8) == U64
  {
    assert Power256(1) == 256;
    assert Power256(2) == 256 * 256;
    assert Power256(3) == 256 * 0x1_0000;
    assert Power256(4) == 256 * 0x100_0000;
    assert Power256(5) == 256 * 0x1_0000_0000;
    assert Power256(6) == 256 * 0x100_0000_0000;
    assert Power256(7) == 256 * 0x1_0000_0000_0000;
  }

  /** A length-prefixed slice. */
  function Framed(part: Bytes): Bytes { Le(|part|, 8) + part }

  function FramedAll(parts: seq<Bytes>): Bytes {
    if parts == [] then [] else Framed(parts[0]) + FramedAll(parts[1..])
  }

  /** `len(domain) | domain | count | (len(part) | part)*` */
  function Preimage(domain: Bytes, parts: seq<Bytes>): Bytes {
    Framed(domain) + Le(|parts|, 8) + FramedAll(parts)
  }

  /** The `update` calls of `ds_hash`, in order. */
  method Feed(domain: Bytes, parts: seq<Bytes>) returns (fed: Bytes)
    ensures fed == Preimage(domain, parts)
  {
    fed := Le(|domain|, 8);
    fed := fed + domain;
    fed := fed + Le(|parts|, 8);
    ghost var header := fed;
    for k := 0 to |parts|
      invariant fed == header + FramedAll(parts[..k])
    {
      fed := fed + Le(|parts[k]|, 8);
      fed := fed + parts[k];
      assert parts[..k + 1] == parts[..k] + [parts[k]];
      FramedAppend(parts[..k], parts[k]);
    }
    assert parts[..|parts|] == parts;
  }

  lemma {:induction false} FramedAppend(parts: seq<Bytes>, part: Bytes)
    ensures FramedAll(parts + [part]) == FramedAll(parts) + Framed(part)
  {
    if parts == [] {
      assert ([part])[1..] == [];
    } else {
      assert (parts + [part])[1..] == parts[1..] + [part];
      FramedAppend(parts[1..], part);
    }
  }

  ghost predicate Small(parts: seq<Bytes>) {
    |parts| < U64 && forall i :: 0 <= i < |parts| ==> |parts[i]| < U64
  }

  // ---- Reading it back ----

  /** The number that little-endian bytes stand for. */
  function Value(b: Bytes): nat { if b == [] then 0 else b[0] + 256 * Value(b[1..]) }

  /** A slice behind its eight-byte length, and what follows it. */
  function ReadFrame(b: Bytes): Option<(Bytes, Bytes)> {
    if |b| < 8 then None
    else
      var n := Value(b[..8]);
      if n > |b| - 8 then None else Some((b[8..8 + n], b[8 + n..]))
  }

  /** Exactly `n` slices. */
  function ReadFrames(b: Bytes, n: nat): Option<seq<Bytes>> {
    if n == 0 then if b == [] then Some([]) else None
    else
      match ReadFrame(b)
      case None => None
      case Some((part, rest)) =>
        match ReadFrames(rest, n - 1)
        case None => None
        case Some(parts) => Some([part] + parts)
  }

  /** A reader of the layout: the domain, the number of parts, the parts, and nothing else. */
  function Read(b: Bytes): Option<(Bytes, seq<Bytes>)> {
    match ReadFrame(b)
    case None => None
    case Some((domain, rest)) =>
      if |rest| < 8 then None
      else
        match ReadFrames(rest[8..], Value(rest[..8]))
        case None => None
        case Some(parts) => Some((domain, parts))
  }

  lemma {:induction false} LeReads(n: nat, k: nat)
    requires n < Power256(k)
    ensures Value(Le(n, k)) == n
  {
    if k > 0 {
      assert Le(n, k)[1..] == Le(n / 256, k - 1);
      LeReads(n / 256, k - 1);
    }
  }

  lemma FrameReads(part: Bytes, rest: Bytes)
    requires |part| < U64
    ensures ReadFrame(Framed(part) + rest) == Some((part, rest))
  {
    var b := Framed(part) + rest;
    Widths();
    LeReads(|part|, 8);
    assert b[..8] == Le(|part|, 8);
    assert b[8..8 + |part|] == part && b[8 + |part|..] == rest;
  }

  lemma FramesReadOne(part: Bytes, rest: Bytes, parts: seq<Bytes>)
    requires |part| < U64 && ReadFrames(rest, |parts|) == Some(parts)
    ensures ReadFrames(Framed(part) + rest, |parts| + 1) == Some([part] + parts)
  {
    FrameReads(part, rest);
  }

  lemma {:induction false} FramesRead(parts: seq<Bytes>)
    requires Small(parts)
    ensures ReadFrames(FramedAll(parts), |parts|) == Some(parts)
  {
    if parts != [] {
      FramesRead(parts[1..]);
      FramesReadOne(parts[0], FramedAll(parts[1..]), parts[1..]);
      assert parts == [parts[0]] + parts[1..];
    }
  }

  /** Reading a pre-image gives back the domain and the parts it was made of. */
  lemma PreimageReads(domain: Bytes, parts: seq<Bytes>)
    requires |domain| < U64 && Small(parts)
    ensures Read(Preimage(domain, parts)) == Some((domain, parts))
  {
    var rest := Le(|parts|, 8) + FramedAll(parts);
    assert Preimage(domain, parts) == Framed(domain) + rest;
    FrameReads(domain, rest);
    Widths();
    LeReads(|parts|, 8);
    assert rest[..8] == Le(|parts|, 8) && rest[8..] == FramedAll(parts);
    FramesRead(parts);
  }

  /** No two (domain, parts) inputs share a pre-image: bytes cannot shift across boundaries. */
  lemma PreimageInjective(d: Bytes, p: seq<Bytes>, e: Bytes, q: seq<Bytes>)
    requires |d| < U64 && |e| < U64 && Small(p) && Small(q)
    requires Preimage(d, p) == Preimage(e, q)
    ensures d == e && p == q
  {
    PreimageReads(d, p);
    PreimageReads(e, q);
  }

  // ---- The context binding ----

  function Ascii(s: string): (b: Bytes)
    ensures |b| == |s|
  {
    seq(|s|, i requires 0 <= i < |s| => s[i] as int)
  }

  function GameId(g: Game): string {
    match g
    case Zjh => "zjh"
    case Niuniu => "niuniu"
    case Sangong => "sangong"
    case Shortdeck => "shortdeck"
    case Ddz => "ddz"
    case Guandan => "guandan"
    case Blackjack => "blackjack"
    case Baccarat => "baccarat"
    case Colorcards => "colorcards"
  }

  lemma GameIdInjective(g: Game, h: Game)
    requires Ascii(GameId(g)) == Ascii(GameId(h))
    ensures g == h
  {
    assert |GameId(g)| == |GameId(h)|;
    assert Ascii(GameId(g))[0] == GameId(g)[0] as int && Ascii(GameId(h))[0] == GameId(h)[0] as int;
    assert GameId(g)[0] == GameId(h)[0];
  }

  /** Each card identity as two little-endian bytes. */
  function CardBytes(cards: seq<nat>): Bytes {
    if cards == [] then [] else Le(cards[0], 2) + CardBytes(cards[1..])
  }

  lemma {:induction false} CardBytesInjective(a: seq<nat>, b: seq<nat>)
    requires (forall i :: 0 <= i < |a| ==> a[i] < 0x1_0000) && (forall i :: 0 <= i < |b| ==> b[i] < 0x1_0000)
    requires CardBytes(a) == CardBytes(b)
    ensures a == b
  {
    if a != [] && b != [] {
      var s, t := CardBytes(a), CardBytes(b);
      assert s[..2] == Le(a[0], 2) && t[..2] == Le(b[0], 2);
      assert s[2..] == CardBytes(a[1..]) && t[2..] == CardBytes(b[1..]);
      Widths();
      LeReads(a[0], 2);
      LeReads(b[0], 2);
      CardBytesInjective(a[1..], b[1..]);
      assert a == [a[0]] + a[1..] && b == [b[0]] + b[1..];
    }
  }

  function PreviousBytes(c: Context): Bytes { match c.previous case Some(p) => p case None => [] }

  /** The seven parts hashed by `Context::binding`. */
  function BindingParts(c: Context): seq<Bytes> {
    [Ascii(GameId(c.game)),
     c.handId,
     c.seats,
     c.roster,
     Le(c.epoch, 4),
     PreviousBytes(c),
     CardBytes(Identities(c))]
  }

  lemma {:induction false} CardBytesLength(cards: seq<nat>)
    ensures |CardBytes(cards)| == 2 * |cards|
  {
    if cards != [] { CardBytesLength(cards[1..]); }
  }

  /** What the types of a context already say: a 16-byte hand id, a 32-bit epoch, 16-bit cards, lengths in memory. */
  ghost predicate WellTyped(c: Context) {
    && |c.handId| == 16 && c.epoch < 0x1_0000_0000
    && |c.seats| < U64 && |c.roster| < U64 && |PreviousBytes(c)| < U64 && 2 * |Identities(c)| < U64
    && forall i :: 0 <= i < |Identities(c)| ==> Identities(c)[i] < 0x1_0000
  }

  /** The binding sees neither whether a digest is absent or empty, nor whether a subset is absent or everything. */
  ghost predicate SameBinding(a: Context, b: Context) {
    && a.game == b.game && a.handId == b.handId && a.seats == b.seats && a.roster == b.roster && a.epoch == b.epoch
    && PreviousBytes(a) == PreviousBytes(b) && Identities(a) == Identities(b)
  }

  lemma BindingIsSmall(c: Context)
    requires WellTyped(c)
    ensures Small(BindingParts(c))
  {
    CardBytesLength(Identities(c));
    var parts := BindingParts(c);
    assert |parts[0]| < U64 && |parts[1]| < U64 && |parts[2]| < U64 && |parts[3]| < U64;
    assert |parts[4]| < U64 && |parts[5]| < U64 && |parts[6]| < U64;
  }

  lemma PartsDetermineBinding(a: Context, b: Context)
    requires WellTyped(a) && WellTyped(b) && BindingParts(a) == BindingParts(b)
    ensures SameBinding(a, b)
  {
    var p, q := BindingParts(a), BindingParts(b);
    assert p[0] == q[0] && p[1] == q[1] && p[2] == q[2] && p[3] == q[3] && p[4] == q[4] && p[5] == q[5] && p[6] == q[6];
    GameIdInjective(a.game, b.game);
    Widths();
    LeReads(a.epoch, 4);
    LeReads(b.epoch, 4);
    CardBytesInjective(Identities(a), Identities(b));
  }

  lemma SameBindingSameParts(a: Context, b: Context)
    requires WellTyped(a) && WellTyped(b) && SameBinding(a, b)
    ensures BindingParts(a) == BindingParts(b)
  {
  }

  /** Two contexts share a binding pre-image exactly when they agree on everything the binding sees. */
  lemma BindingAgreesExactly(domain: Bytes, a: Context, b: Context)
    requires |domain| < U64 && WellTyped(a) && WellTyped(b)
    ensures Preimage(domain, BindingParts(a)) == Preimage(domain, BindingParts(b)) <==> SameBinding(a, b)
  {
    if Preimage(domain, BindingParts(a)) == Preimage(domain, BindingParts(b)) {
      BindingIsSmall(a);
      BindingIsSmall(b);
      PreimageInjective(domain, BindingParts(a), domain, BindingParts(b));
      PartsDetermineBinding(a, b);
    }
    if SameBinding(a, b) { SameBindingSameParts(a, b); }
  }

  lemma ValidatedIsWellTyped(c: Context)
    requires Validated(c)
    ensures WellTyped(c)
  {
  }

  /**
   The context hash pre-image is injective on validated contexts: a reshuffle of every
   card and a first deal list the same identities, and the previous digest tells them apart.
   */
  lemma ContextBindingInjective(domain: Bytes, a: Context, b: Context)
    requires |domain| < U64 && Validated(a) && Validated(b)
    requires Preimage(domain, BindingParts(a)) == Preimage(domain, BindingParts(b))
    ensures a == b
  {
    ValidatedIsWellTyped(a);
    ValidatedIsWellTyped(b);
    BindingAgreesExactly(domain, a, b);
  }

  /**
   Without validation, as when `reorder_cards` takes a context from a commitment, the binding
   is ambiguous: a subset listing the whole deck reads like no subset. Every first deal has such a twin.
   */
  lemma UnvalidatedBindingCollides(c: Context)
    requires Validated(c) && c.subset.None?
    ensures var twin := c.(subset := Some(Identities(c)));
            twin != c && WellTyped(twin) && !Validated(twin) && BindingParts(twin) == BindingParts(c)
  {
    ValidatedIsWellTyped(c);
    SameBindingSameParts(c.(subset := Some(Identities(c))), c);
  }
}
