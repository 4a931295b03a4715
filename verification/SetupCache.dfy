/** The prover's setup: sizing it, storing it as flat fixed-width points, and caching it on disk. */
module SetupCache {
  import opened Arithmetic
  import opened Commitments
  import opened Names
  import opened Results

  type Byte = b: nat | b < 256

  type Bytes = seq<Byte>

  const POINT_SIZE: nat := 32
  const TWO_53: nat := 0x20_0000_0000_0000
  const TWO_58: nat := 0x400_0000_0000_0000
  const TWO_59: nat := 2 * TWO_58
  const TWO_63: nat := 16 * TWO_59
  const TWO_64: nat := 2 * TWO_63

  /** Machine words; release builds reduce arithmetic on them modulo 2^64. */
  type usize = x: nat | x < TWO_64

  // ---- Sizing ----

  function Doubled(from: nat, target: nat): nat
    requires from > 0
    decreases target - from
  {
    if from >= target then from else Doubled(2 * from, target)
  }

  function NextPowerOfTwo(n: usize): usize {
    if n <= TWO_63 then
      NextFits(n);
      Doubled(1, n)
    else 0
  }

  function Ilog2(n: nat): nat {
    if n < 2 then 0 else 1 + Ilog2(n / 2)
  }

  /** How many powers are loaded to serve `rows` rows. */
  function CapacityFor(rows: usize): usize {
    NextPowerOfTwo(if rows == 0 then 1 else rows)
  }

  lemma {:induction false} DoubledIsLeast(k: nat, target: nat)
    ensures exists j :: j >= k && Doubled(Pow2(k), target) == Pow2(j)
    ensures target <= Doubled(Pow2(k), target)
    ensures Doubled(Pow2(k), target) > Pow2(k) ==> Doubled(Pow2(k), target) < 2 * target
    decreases target - Pow2(k)
  {
    if Pow2(k) < target {
      assert Pow2(k + 1) == 2 * Pow2(k);
      DoubledIsLeast(k + 1, target);
    } else {
      assert Doubled(Pow2(k), target) == Pow2(k);
    }
  }

  lemma Pow2Values()
    ensures Pow2(53) == TWO_53 && Pow2(58) == TWO_58 && Pow2(59) == TWO_59 && Pow2(63) == TWO_63
  {
    Pow2Sum(32, 21);
    Pow2Sum(53, 5);
    Pow2Sum(58, 1);
    Pow2Sum(59, 4);
    Pow2Small();
  }

  lemma NextFits(n: nat)
    requires n <= TWO_63
    ensures Doubled(1, n) < TWO_64
  {
    DoubledIsLeast(0, n);
    var j: nat :| Doubled(Pow2(0), n) == Pow2(j);
    Pow2Values();
    if j > 63 {
      Pow2Monotonic(63, j);
    }
  }

  predicate IsPow2(n: nat) {
    exists k: nat | k <= n :: n == Pow2(k)
  }

  lemma {:induction false} ExponentBound(k: nat)
    ensures k < Pow2(k)
  {
    if k > 0 { ExponentBound(k - 1); }
  }

  lemma {:induction false} Ilog2Pow2(k: nat)
    ensures Ilog2(Pow2(k)) == k
  {
    if k > 0 { Ilog2Pow2(k - 1); }
  }

  /** Up to 2^63 rows, capacity is the least power of two covering them, and its logarithm, which
      names the ceremony file, is exact. Beyond, it wraps to nothing. */
  lemma CapacityIsLeast(rows: usize)
    ensures rows <= CapacityFor(rows) <==> rows <= TWO_63
    ensures rows <= TWO_63 ==>
      && IsPow2(CapacityFor(rows))
      && Pow2(Ilog2(CapacityFor(rows))) == CapacityFor(rows)
      && forall k: nat :: rows <= Pow2(k) ==> CapacityFor(rows) <= Pow2(k)
  {
    if rows <= TWO_63 {
      var target := if rows == 0 then 1 else rows;
      DoubledIsLeast(0, target);
      var j: nat :| Doubled(Pow2(0), target) == Pow2(j);
      ExponentBound(j);
      Ilog2Pow2(j);
      forall k: nat | rows <= Pow2(k)
        ensures CapacityFor(rows) <= Pow2(k)
      {
        if k < j { Pow2Monotonic(k, j); }
        if j < k { Pow2Monotonic(j, k); }
      }
    }
  }

  /** The name of the published file that `capacity` powers are taken from. */
  function PtauFile(capacity: usize): string {
    "ppot_0080_" + Padded(Ilog2(capacity), 2) + ".ptau"
  }

  /** File names with a two-digit power where the ceremony's names have it. */
  predicate NamesPower(file: string) {
    |file| == 17 && '0' <= file[10] <= '9' && '0' <= file[11] <= '9'
  }

  function PowerNamed(file: string): nat
    requires NamesPower(file)
  {
    10 * (file[10] - '0') as nat + (file[11] - '0') as nat
  }

  /** The powers in the published file of that name. */
  function PublishedPowers(file: string): nat
    requires NamesPower(file)
  {
    Pow2(PowerNamed(file) + 1) - 1
  }

  lemma PtauFileDigits(capacity: usize, power: nat)
    requires Ilog2(capacity) == power < 100
    ensures PtauFile(capacity) == "ppot_0080_" + [Digit(power / 10), Digit(power % 10)] + ".ptau"
    ensures NamesPower(PtauFile(capacity)) && PowerNamed(PtauFile(capacity)) == power
  {
    assert Padded(power, 2) == Padded(power / 10, 1) + [Digit(power % 10)];
    assert Padded(power / 10, 1) == [Digit(power / 10)];
  }

  lemma CapacityPower(rows: usize)
    requires rows <= TWO_63
    ensures Ilog2(CapacityFor(rows)) <= 63 && Pow2(Ilog2(CapacityFor(rows))) == CapacityFor(rows)
  {
    CapacityIsLeast(rows);
    Pow2Values();
    if Ilog2(CapacityFor(rows)) > 63 { Pow2Monotonic(63, Ilog2(CapacityFor(rows))); }
  }

  lemma SameMiddle(prefix: string, a: string, b: string, suffix: string)
    requires prefix + a + suffix == prefix + b + suffix
    ensures a == b
  {
    var text := prefix + a + suffix;
    assert |a| == |b|;
    assert text[|prefix|..|prefix| + |a|] == a;
    assert text[|prefix|..|prefix| + |b|] == b;
  }

  lemma PtauFileInjective(a: usize, b: usize)
    requires PtauFile(a) == PtauFile(b)
    ensures Ilog2(a) == Ilog2(b)
  {
    SameMiddle("ppot_0080_", Padded(Ilog2(a), 2), Padded(Ilog2(b), 2), ".ptau");
    PaddedInjective(Ilog2(a), Ilog2(b), 2);
  }

  /** The file asked for is named after the exact power in two digits, holds every power wanted and
      under twice as many, and is named for no other capacity. */
  lemma PtauFileFits(rows: usize, other: usize)
    requires rows <= TWO_63 && other <= TWO_63
    ensures var file, capacity := PtauFile(CapacityFor(rows)), CapacityFor(rows);
      && NamesPower(file) && file[..10] == "ppot_0080_" && file[12..] == ".ptau"
      && Pow2(PowerNamed(file)) == capacity
      && capacity <= PublishedPowers(file) < 2 * capacity
    ensures PtauFile(CapacityFor(rows)) == PtauFile(CapacityFor(other)) <==> CapacityFor(rows) == CapacityFor(other)
  {
    CapacityPower(rows);
    CapacityPower(other);
    PtauFileDigits(CapacityFor(rows), Ilog2(CapacityFor(rows)));
    if PtauFile(CapacityFor(rows)) == PtauFile(CapacityFor(other)) {
      PtauFileInjective(CapacityFor(rows), CapacityFor(other));
    }
  }

  /** How many bytes a download of `points` powers may take. */
  function DownloadLimit(points: usize): usize {
    (points * 1152 + 0x10_0000) % TWO_64
  }

  function FileSize(powers: nat, header: nat): nat {
    576 * powers + header
  }

  /** `limit` admits every file of under twice `points` powers behind a header of up to 1 MiB. */
  ghost predicate Admits(limit: nat, points: nat) {
    forall powers: nat, header: nat :: powers < 2 * points && header <= 0x10_0000 ==> FileSize(powers, header) <= limit
  }

  lemma LimitBelow(capacity: usize)
    requires 0 < capacity <= TWO_53
    ensures Admits(DownloadLimit(capacity), capacity)
    ensures !Admits(DownloadLimit(capacity), capacity + 1)
  {
    assert capacity * 1152 + 0x10_0000 < TWO_64;
    assert FileSize(2 * capacity + 1, 0x10_0000) > DownloadLimit(capacity);
  }

  lemma LimitAbove(capacity: usize)
    requires capacity >= 2 * TWO_53
    ensures !Admits(DownloadLimit(capacity), capacity)
  {
    assert DownloadLimit(capacity) < TWO_64;
    assert FileSize(2 * capacity - 1, 0x10_0000) >= TWO_64;
  }

  /** The limit admits every published file exactly for capacities up to 2^53, and then no more than
      that: not every file of twice one power more. */
  lemma LimitAdmitsIff(rows: usize)
    requires rows <= TWO_63
    ensures CapacityFor(rows) <= TWO_53 ==> !Admits(DownloadLimit(CapacityFor(rows)), CapacityFor(rows) + 1)
    ensures Admits(DownloadLimit(CapacityFor(rows)), CapacityFor(rows)) <==> CapacityFor(rows) <= TWO_53
  {
    CapacityIsLeast(rows);
    var j: nat :| CapacityFor(rows) == Pow2(j);
    Pow2Values();
    if j > 53 {
      Pow2Monotonic(53, j);
      LimitAbove(CapacityFor(rows));
    } else {
      if j < 53 { Pow2Monotonic(j, 53); }
      LimitBelow(CapacityFor(rows));
    }
  }

  // ---- The flat codec ----

  /** A compressed point encoding: fixed width, decodable, and checked on the way in. */
  datatype PointCodec = PointCodec(encode: Point -> Bytes, decode: Bytes -> Option<Point>)

  ghost predicate Lawful(codec: PointCodec) {
    forall p: Point :: |codec.encode(p)| == POINT_SIZE && codec.decode(codec.encode(p)) == Some(p)
  }

  datatype SetupError = Read | TooSmall(available: nat, wanted: nat) | Deserialize | Download | Write

  function Encode(codec: PointCodec, setup: Setup): Bytes {
    if setup == [] then [] else Encode(codec, setup[..|setup| - 1]) + codec.encode(setup[|setup| - 1])
  }

  /** The bytes of a setup: every point in turn, with nothing between. */
  method ToCompressed(codec: PointCodec, setup: Setup) returns (bytes: Bytes)
    ensures bytes == Encode(codec, setup)
  {
    bytes := [];
    for i := 0 to |setup|
      invariant bytes == Encode(codec, setup[..i])
    {
      bytes := bytes + codec.encode(setup[i]);
      assert setup[..i + 1][..i] == setup[..i];
    }
    assert setup[..|setup|] == setup;
  }

  function DecodeFlat(codec: PointCodec, bytes: Bytes): Result<Setup, SetupError> {
    if |bytes| < POINT_SIZE then Ok([])
    else
      var first := codec.decode(bytes[..POINT_SIZE]);
      if first.None? then Err(Deserialize)
      else
        var rest :- DecodeFlat(codec, bytes[POINT_SIZE..]);
        Ok([first.value] + rest)
  }

  /** A read of `points` points off the front of a file, without looking at what follows them. */
  function FromCompressed(codec: PointCodec, bytes: Bytes, points: usize): Result<Setup, SetupError> {
    var wanted := points * POINT_SIZE % TWO_64;
    if wanted <= |bytes| then DecodeFlat(codec, bytes[..wanted])
    else Err(TooSmall(|bytes| / POINT_SIZE, points))
  }

  lemma {:induction false} EncodeLength(codec: PointCodec, setup: Setup)
    requires Lawful(codec)
    ensures |Encode(codec, setup)| == POINT_SIZE * |setup|
  {
    if setup != [] { EncodeLength(codec, setup[..|setup| - 1]); }
  }

  lemma {:induction false} EncodeSplits(codec: PointCodec, a: Setup, b: Setup)
    ensures Encode(codec, a + b) == Encode(codec, a) + Encode(codec, b)
  {
    if b == [] {
      assert a + b == a;
    } else {
      assert (a + b)[..|a + b| - 1] == a + b[..|b| - 1];
      EncodeSplits(codec, a, b[..|b| - 1]);
    }
  }

  lemma {:induction false} DecodeEncode(codec: PointCodec, setup: Setup)
    requires Lawful(codec)
    ensures DecodeFlat(codec, Encode(codec, setup)) == Ok(setup)
  {
    if setup != [] {
      var head, rest := [setup[0]], setup[1..];
      assert setup == head + rest;
      EncodeSplits(codec, head, rest);
      assert head[..0] == [];
      assert Encode(codec, head) == codec.encode(setup[0]);
      DecodeEncode(codec, rest);
      assert Encode(codec, setup)[..POINT_SIZE] == codec.encode(setup[0]);
      assert Encode(codec, setup)[POINT_SIZE..] == Encode(codec, rest);
    }
  }

  lemma EncodePrefix(codec: PointCodec, setup: Setup, n: nat)
    requires Lawful(codec) && n <= |setup|
    ensures |Encode(codec, setup)| >= POINT_SIZE * n
    ensures Encode(codec, setup)[..POINT_SIZE * n] == Encode(codec, setup[..n])
  {
    assert setup == setup[..n] + setup[n..];
    EncodeSplits(codec, setup[..n], setup[n..]);
    EncodeLength(codec, setup[..n]);
    EncodeLength(codec, setup);
  }

  /** Each point's encoding is where its index says, and nothing else is in the file. */
  lemma EncodedAt(codec: PointCodec, setup: Setup, i: nat)
    requires Lawful(codec) && i < |setup|
    ensures |Encode(codec, setup)| == POINT_SIZE * |setup|
    ensures Encode(codec, setup)[POINT_SIZE * i..POINT_SIZE * (i + 1)] == codec.encode(setup[i])
  {
    EncodeLength(codec, setup);
    EncodePrefix(codec, setup, i + 1);
    EncodePrefix(codec, setup[..i + 1], i);
    assert setup[..i + 1][..i] == setup[..i];
    EncodeLength(codec, setup[..i]);
    assert Encode(codec, setup[..i + 1]) == Encode(codec, setup[..i]) + codec.encode(setup[i]);
    assert Encode(codec, setup)[POINT_SIZE * i..POINT_SIZE * (i + 1)]
        == Encode(codec, setup)[..POINT_SIZE * (i + 1)][POINT_SIZE * i..];
  }

  /** What reading `n` points from a file holding `length` bytes of `setup` should give. */
  function PrefixRead(setup: Setup, length: nat, n: nat): Result<Setup, SetupError>
    requires length <= POINT_SIZE * |setup|
  {
    if n <= length / POINT_SIZE then Ok(setup[..n]) else Err(TooSmall(length / POINT_SIZE, n))
  }

  lemma ReadPowers(codec: PointCodec, setup: Setup, length: nat, n: nat)
    requires Lawful(codec)
    requires POINT_SIZE * n <= length <= POINT_SIZE * |setup|
    ensures length <= |Encode(codec, setup)|
    ensures DecodeFlat(codec, Encode(codec, setup)[..length][..POINT_SIZE * n]) == Ok(setup[..n])
  {
    EncodeLength(codec, setup);
    EncodePrefix(codec, setup, n);
    assert Encode(codec, setup)[..length][..POINT_SIZE * n] == Encode(codec, setup[..n]);
    DecodeEncode(codec, setup[..n]);
  }

  lemma WantedBytes(n: usize)
    ensures n * POINT_SIZE % TWO_64 == POINT_SIZE * (n % TWO_59)
  {
    var q, m := n / TWO_59, n % TWO_59;
    assert n * POINT_SIZE == q * TWO_64 + m * POINT_SIZE;
  }

  /** What a read of `n` points from that file gives. */
  lemma TruncatedRead(codec: PointCodec, setup: Setup, length: nat, n: usize)
    requires Lawful(codec)
    requires length <= POINT_SIZE * |setup|
    ensures length <= |Encode(codec, setup)|
    ensures FromCompressed(codec, Encode(codec, setup)[..length], n)
         == if POINT_SIZE * (n % TWO_59) <= length then Ok(setup[..n % TWO_59]) else Err(TooSmall(length / POINT_SIZE, n))
  {
    EncodeLength(codec, setup);
    WantedBytes(n);
    if POINT_SIZE * (n % TWO_59) <= length {
      ReadPowers(codec, setup, length, n % TWO_59);
    }
  }

  /** For every truncation of an encoding, at any byte: a read gives the powers asked for when they
      are all there, and otherwise how many are. It does so exactly when the byte count asked for
      does not wrap around to one the file can meet. */
  lemma TruncatedReadIff(codec: PointCodec, setup: Setup, length: nat, n: usize)
    requires Lawful(codec) && length < TWO_64
    requires length <= POINT_SIZE * |setup|
    ensures length <= |Encode(codec, setup)|
    ensures FromCompressed(codec, Encode(codec, setup)[..length], n) == PrefixRead(setup, length, n) <==>
            n < TWO_59 || POINT_SIZE * (n % TWO_59) > length
  {
    TruncatedRead(codec, setup, length, n);
    if n < TWO_59 {
      SmallRemainder(n);
      WholePoints(length, n);
    } else {
      assert length / POINT_SIZE < TWO_59;
    }
  }

  lemma SmallRemainder(n: nat)
    requires n < TWO_59
    ensures n % TWO_59 == n
  {
  }

  lemma WholePoints(length: nat, n: nat)
    ensures n <= length / POINT_SIZE <==> POINT_SIZE * n <= length
  {
  }

  // ---- The cache ----

  /** How a write of the cache file ends: refused before it starts, torn after some bytes, or whole. */
  datatype WriteOutcome = Refused | TornAt(length: nat) | Complete

  datatype Env = Env(readable: bool, online: bool, written: WriteOutcome)

  datatype Resolved = Resolved(setup: Setup) | Failed(error: SetupError) | Panicked

  type Cache = Option<Bytes>

  function Written(cache: Cache, bytes: Bytes, outcome: WriteOutcome): Cache {
    match outcome
    case Refused => cache
    case TornAt(length) => Some(if length < |bytes| then bytes[..length] else bytes)
    case Complete => Some(bytes)
  }

  /** Whether the cache cannot serve the request but a download might. */
  predicate Misses(codec: PointCodec, cache: Cache, rows: usize, env: Env) {
    cache.None? || (env.readable && FromCompressed(codec, cache.value, CapacityFor(rows)).Err?
                    && FromCompressed(codec, cache.value, CapacityFor(rows)).error.TooSmall?)
  }

  function Resolve(codec: PointCodec, tau: Ceremony, cache: Cache, rows: usize, env: Env): (Resolved, Cache) {
    var capacity := CapacityFor(rows);
    if !Misses(codec, cache, rows, env) then
      if !env.readable then (Failed(Read), cache)
      else match FromCompressed(codec, cache.value, capacity)
        case Ok(setup) => (Resolved(setup), cache)
        case Err(error) => (Failed(error), cache)
    else Fetch(codec, tau, cache, capacity, env)
  }

  /** Downloads `capacity` powers and writes them over the cache. */
  function Fetch(codec: PointCodec, tau: Ceremony, cache: Cache, capacity: usize, env: Env): (Resolved, Cache) {
    if capacity == 0 then (Panicked, cache)
    else if !env.online then (Failed(Download), cache)
    else
      var setup := Powers(tau, capacity);
      (if env.written.Complete? then Resolved(setup) else Failed(Write),
       Written(cache, Encode(codec, setup), env.written))
  }

  /** A data directory's `setup.bin`. */
  class SetupFile {
    var cache: Cache

    constructor (found: Cache)
      ensures cache == found
    {
      cache := found;
    }

    method WriteSetup(bytes: Bytes, outcome: WriteOutcome)
      modifies this
      ensures cache == Written(old(cache), bytes, outcome)
    {
      if outcome.TornAt? && outcome.length < |bytes| {
        cache := Some(bytes[..outcome.length]);
      } else if !outcome.Refused? {
        cache := Some(bytes);
      }
    }

    /** Serves from the cache when it can, and otherwise from a download that replaces it. */
    method ResolveSetup(codec: PointCodec, tau: Ceremony, rows: usize, env: Env) returns (r: Resolved)
      modifies this
      ensures (r, cache) == Resolve(codec, tau, old(cache), rows, env)
    {
      var capacity := CapacityFor(rows);
      if cache.Some? {
        if !env.readable {
          return Failed(Read);
        }
        var read := FromCompressed(codec, cache.value, capacity);
        if read.Ok? {
          return Resolved(read.value);
        }
        if !read.error.TooSmall? {
          return Failed(read.error);
        }
      }
      r := SetupCommand(codec, tau, rows, env);
    }

    /** Replaces the file by a fresh download, whatever was there. */
    method SetupCommand(codec: PointCodec, tau: Ceremony, rows: usize, env: Env) returns (r: Resolved)
      modifies this
      ensures (r, cache) == Fetch(codec, tau, old(cache), CapacityFor(rows), env)
    {
      var capacity := CapacityFor(rows);
      if capacity == 0 {
        return Panicked;
      }
      if !env.online {
        return Failed(Download);
      }
      var setup := Powers(tau, capacity);
      var bytes := ToCompressed(codec, setup);
      WriteSetup(bytes, env.written);
      return if env.written.Complete? then Resolved(setup) else Failed(Write);
    }
  }

  // ---- Every run agrees with the ceremony ----

  /** The cache, when there, is what some number of ceremony powers encode to, cut off at some byte. */
  ghost predicate CachesCeremony(codec: PointCodec, tau: Ceremony, cache: Cache) {
    cache.Some? ==> exists n :: HoldsPowers(codec, tau, cache.value, n)
  }

  ghost predicate HoldsPowers(codec: PointCodec, tau: Ceremony, bytes: Bytes, n: nat) {
    bytes <= Encode(codec, Powers(tau, n))
  }

  datatype Call = ResolveCall(rows: usize, env: Env) | SetupCall(rows: usize, env: Env)

  function Answer(codec: PointCodec, tau: Ceremony, cache: Cache, call: Call): (Resolved, Cache) {
    match call
    case ResolveCall(rows, env) => Resolve(codec, tau, cache, rows, env)
    case SetupCall(rows, env) => Fetch(codec, tau, cache, CapacityFor(rows), env)
  }

  function CacheAfter(codec: PointCodec, tau: Ceremony, cache: Cache, calls: seq<Call>): Cache {
    if calls == [] then cache
    else Answer(codec, tau, CacheAfter(codec, tau, cache, calls[..|calls| - 1]), calls[|calls| - 1]).1
  }

  predicate Sized(rows: usize) {
    rows <= TWO_58
  }

  lemma SizedCapacity(rows: usize)
    requires Sized(rows)
    ensures 0 < CapacityFor(rows) < TWO_59
  {
    CapacityIsLeast(rows);
    Pow2Values();
    assert rows <= Pow2(58);
  }

  /** Whether `call` goes past the cache to the download. */
  predicate Fetches(codec: PointCodec, cache: Cache, call: Call) {
    call.SetupCall? || Misses(codec, cache, call.rows, call.env)
  }

  /** How many powers a call that succeeds gives. */
  function PowersGiven(codec: PointCodec, cache: Cache, call: Call): usize {
    if Sized(call.rows) || Fetches(codec, cache, call) then CapacityFor(call.rows) else 0
  }

  /** Reading the cache gives the first powers, as many as the wrapped byte count asks for, or reports it
      too small: never an error, never others. */
  lemma CacheReads(codec: PointCodec, tau: Ceremony, bytes: Bytes, capacity: usize)
    requires Lawful(codec) && CachesCeremony(codec, tau, Some(bytes))
    ensures FromCompressed(codec, bytes, capacity) ==
      if POINT_SIZE * (capacity % TWO_59) <= |bytes| then Ok(Powers(tau, capacity % TWO_59))
      else Err(TooSmall(|bytes| / POINT_SIZE, capacity))
  {
    var n :| HoldsPowers(codec, tau, bytes, n);
    var setup, wanted := Powers(tau, n), capacity % TWO_59;
    EncodeLength(codec, setup);
    TruncatedRead(codec, setup, |bytes|, capacity);
    assert bytes == Encode(codec, setup)[..|bytes|];
    if POINT_SIZE * wanted <= |bytes| {
      assert setup[..wanted] == Powers(tau, wanted);
    }
  }

  lemma WrappedCapacity(rows: usize)
    ensures CapacityFor(rows) % TWO_59 == if Sized(rows) then CapacityFor(rows) else 0
  {
    if Sized(rows) {
      SizedCapacity(rows);
      SmallRemainder(CapacityFor(rows));
    } else {
      OversizedWraps(rows);
      WantedBytes(CapacityFor(rows));
    }
  }

  lemma FetchKeeps(codec: PointCodec, tau: Ceremony, cache: Cache, capacity: usize, env: Env)
    requires CachesCeremony(codec, tau, cache)
    ensures CachesCeremony(codec, tau, Fetch(codec, tau, cache, capacity, env).1)
  {
    if capacity > 0 && env.online && !env.written.Refused? {
      assert HoldsPowers(codec, tau, Fetch(codec, tau, cache, capacity, env).1.value, capacity);
    }
  }

  lemma CallKeeps(codec: PointCodec, tau: Ceremony, cache: Cache, call: Call)
    requires Lawful(codec) && CachesCeremony(codec, tau, cache)
    ensures CachesCeremony(codec, tau, Answer(codec, tau, cache, call).1)
    ensures var r := Answer(codec, tau, cache, call).0;
      && r != Failed(Deserialize) && (r.Panicked? ==> call.rows > TWO_63)
      && (r.Resolved? ==> r.setup == Powers(tau, PowersGiven(codec, cache, call)))
  {
    FetchKeeps(codec, tau, cache, CapacityFor(call.rows), call.env);
    CapacityIsLeast(call.rows);
    WrappedCapacity(call.rows);
    if cache.Some? {
      CacheReads(codec, tau, cache.value, CapacityFor(call.rows));
    }
  }

  /** Over any calls from an empty cache, with downloads failing and writes torn at any byte: the cache
      stays a prefix of the ceremony, and whatever call succeeds next returns the first powers of it.
      They are as many as the capacity it asks for, but for a cache read of more than 2^58 rows. */
  lemma {:induction false} EveryCallAgrees(codec: PointCodec, tau: Ceremony, calls: seq<Call>, next: Call)
    requires Lawful(codec)
    ensures CachesCeremony(codec, tau, CacheAfter(codec, tau, None, calls))
    ensures var cache := CacheAfter(codec, tau, None, calls);
            var r := Answer(codec, tau, cache, next).0;
      && r != Failed(Deserialize) && (r.Panicked? ==> next.rows > TWO_63)
      && (r.Resolved? ==> r.setup == Powers(tau, PowersGiven(codec, cache, next)))
  {
    if calls != [] {
      EveryCallAgrees(codec, tau, calls[..|calls| - 1], calls[|calls| - 1]);
      CallKeeps(codec, tau, CacheAfter(codec, tau, None, calls[..|calls| - 1]), calls[|calls| - 1]);
    }
    CallKeeps(codec, tau, CacheAfter(codec, tau, None, calls), next);
  }

  // ---- How every call ends ----

  ghost predicate FirstPowers(tau: Ceremony, setup: Setup, n: nat) {
    |setup| == n && forall i :: 0 <= i < n ==> setup[i] == tau(i)
  }

  /** A cache that is there and cannot be read stops the call. */
  predicate Unreadable(cache: Cache, call: Call) {
    call.ResolveCall? && cache.Some? && !call.env.readable
  }

  /** The cache is readable and as long as the bytes asked of it. */
  predicate Hits(cache: Cache, call: Call) {
    call.ResolveCall? && cache.Some? && call.env.readable && POINT_SIZE * (CapacityFor(call.rows) % TWO_59) <= |cache.value|
  }

  /** What the cache file holds after a download of `n` powers was written over it, as far as the write got. */
  ghost predicate Overwritten(codec: PointCodec, tau: Ceremony, before: Cache, n: nat, outcome: WriteOutcome, after: Cache) {
    if outcome.Refused? then after == before
    else
      && after.Some? && after.value <= Encode(codec, Powers(tau, n))
      && |after.value| == if outcome.TornAt? && outcome.length < POINT_SIZE * n then outcome.length else POINT_SIZE * n
  }

  lemma WrittenOverwrites(codec: PointCodec, tau: Ceremony, before: Cache, n: nat, outcome: WriteOutcome)
    requires Lawful(codec)
    ensures Overwritten(codec, tau, before, n, outcome, Written(before, Encode(codec, Powers(tau, n)), outcome))
  {
    EncodeLength(codec, Powers(tau, n));
  }

  /** How a call ends, whatever is in the cache: refused by an unreadable cache, served by one that is long
      enough, or else by the download, which succeeds exactly when there is a capacity to ask for, the
      network answers and the write is carried through. */
  lemma CallEnds(codec: PointCodec, tau: Ceremony, cache: Cache, call: Call)
    requires Lawful(codec) && CachesCeremony(codec, tau, cache)
    ensures var r, after, capacity := Answer(codec, tau, cache, call).0, Answer(codec, tau, cache, call).1, CapacityFor(call.rows);
      && (Unreadable(cache, call) ==> r == Failed(Read) && after == cache)
      && (Hits(cache, call) ==> r.Resolved? && FirstPowers(tau, r.setup, capacity % TWO_59) && after == cache)
      && (!Unreadable(cache, call) && !Hits(cache, call) ==>
            && (r.Panicked? <==> call.rows > TWO_63)
            && (r == Failed(Download) <==> call.rows <= TWO_63 && !call.env.online)
            && (r == Failed(Write) <==> call.rows <= TWO_63 && call.env.online && !call.env.written.Complete?)
            && (r.Resolved? <==> call.rows <= TWO_63 && call.env.online && call.env.written.Complete?)
            && (r.Resolved? ==> FirstPowers(tau, r.setup, capacity))
            && (if call.rows <= TWO_63 && call.env.online then Overwritten(codec, tau, cache, capacity, call.env.written, after)
                else after == cache))
  {
    var capacity := CapacityFor(call.rows);
    CapacityIsLeast(call.rows);
    WrittenOverwrites(codec, tau, cache, capacity, call.env.written);
    if cache.Some? {
      CacheReads(codec, tau, cache.value, capacity);
    }
  }

  /** So over any history of calls from an empty cache. */
  lemma EveryCallEnds(codec: PointCodec, tau: Ceremony, calls: seq<Call>, next: Call)
    requires Lawful(codec)
    ensures var cache := CacheAfter(codec, tau, None, calls);
            var r := Answer(codec, tau, cache, next).0;
      && (r.Resolved? <==>
            (Hits(cache, next) || (!Unreadable(cache, next) && next.rows <= TWO_63 && next.env.online && next.env.written.Complete?)))
      && (r.Resolved? ==>
            FirstPowers(tau, r.setup, if Hits(cache, next) then CapacityFor(next.rows) % TWO_59 else CapacityFor(next.rows)))
      && (!r.Resolved? ==>
            r == if Unreadable(cache, next) then Failed(Read)
                 else if next.rows > TWO_63 then Panicked
                 else if !next.env.online then Failed(Download)
                 else Failed(Write))
  {
    EveryCallAgrees(codec, tau, calls, next);
    CallEnds(codec, tau, CacheAfter(codec, tau, None, calls), next);
  }

  /** An undisturbed call of up to 2^58 rows always succeeds, with enough of the ceremony for its rows. */
  lemma SmoothSucceeds(codec: PointCodec, tau: Ceremony, calls: seq<Call>, next: Call)
    requires Lawful(codec) && Smooth(next)
    ensures var r := Answer(codec, tau, CacheAfter(codec, tau, None, calls), next).0;
      && r.Resolved? && FirstPowers(tau, r.setup, CapacityFor(next.rows)) && next.rows <= |r.setup|
  {
    EveryCallEnds(codec, tau, calls, next);
    CapacityIsLeast(next.rows);
    WrappedCapacity(next.rows);
  }

  /** Past 2^58 rows a cache that is there answers wrongly: with no powers, as its byte count wraps to zero. */
  lemma CacheHitIff(codec: PointCodec, tau: Ceremony, bytes: Bytes, rows: usize, env: Env)
    requires Lawful(codec) && CachesCeremony(codec, tau, Some(bytes)) && env.readable
    requires !Misses(codec, Some(bytes), rows, env)
    ensures Resolve(codec, tau, Some(bytes), rows, env).0.Resolved?
    ensures rows <= |Resolve(codec, tau, Some(bytes), rows, env).0.setup| <==> Sized(rows)
  {
    WrappedCapacity(rows);
    CacheReads(codec, tau, bytes, CapacityFor(rows));
    CapacityIsLeast(rows);
  }

  lemma OversizedWraps(rows: usize)
    requires !Sized(rows)
    ensures CapacityFor(rows) * POINT_SIZE % TWO_64 == 0
  {
    if rows <= TWO_63 {
      CapacityIsLeast(rows);
      Pow2Values();
      var j: nat :| CapacityFor(rows) == Pow2(j);
      if j < 58 { Pow2Monotonic(j, 58); }
      if j > 63 { Pow2Monotonic(63, j); }
      TopPowers(j);
    }
  }

  lemma TopPowers(j: nat)
    requires 59 <= j <= 63
    ensures Pow2(j) * POINT_SIZE % TWO_64 == 0
  {
    Pow2Values();
    assert Pow2(60) == 2 * Pow2(59);
    assert Pow2(61) == 2 * Pow2(60);
    assert Pow2(62) == 2 * Pow2(61);
  }

  /** A commitment made under whatever setup one call returned, extended under the setup another call
      returned after a restart, is the commitment the second setup gives all rows from the start, and
      the first too if they fit it. */
  lemma RestartKeepsCommitments(codec: PointCodec, tau: Ceremony, before: seq<Call>, first: Call, between: seq<Call>, second: Call,
                                a: RecordBatch, b: RecordBatch)
    requires Lawful(codec) && a.schema == b.schema
    requires var r := Answer(codec, tau, CacheAfter(codec, tau, None, before), first).0;
             r.Resolved? && |a.rows| <= |r.setup|
    requires var r := Answer(codec, tau, CacheAfter(codec, tau, None, between), second).0;
             r.Resolved? && |a.rows| + |b.rows| <= |r.setup|
    ensures var s1 := Answer(codec, tau, CacheAfter(codec, tau, None, before), first).0.setup;
            var s2 := Answer(codec, tau, CacheAfter(codec, tau, None, between), second).0.setup;
      && Appendable(Commit(a, s1), b, s2)
      && Append(Commit(a, s1), b, s2) == Commit(Concat(a, b), s2)
      && (|a.rows| + |b.rows| <= |s1| ==> Commit(Concat(a, b), s1) == Commit(Concat(a, b), s2))
  {
    EveryCallAgrees(codec, tau, before, first);
    EveryCallAgrees(codec, tau, between, second);
    var few := PowersGiven(codec, CacheAfter(codec, tau, None, before), first);
    var many := PowersGiven(codec, CacheAfter(codec, tau, None, between), second);
    CommitUnderAnySetup(tau, a, few);
    AppendUnderAnySetup(tau, a, b, many);
    CommitUnderAnySetup(tau, Concat(a, b), many);
    if |a.rows| + |b.rows| <= few {
      CommitUnderAnySetup(tau, Concat(a, b), few);
    }
  }

  // ---- How much is downloaded ----

  function Fetched(codec: PointCodec, cache: Cache, call: Call): nat {
    if call.env.online && Fetches(codec, cache, call) then CapacityFor(call.rows) else 0
  }

  function Downloads(codec: PointCodec, tau: Ceremony, calls: seq<Call>): nat {
    if calls == [] then 0
    else
      var before := calls[..|calls| - 1];
      Downloads(codec, tau, before) + if Fetched(codec, CacheAfter(codec, tau, None, before), calls[|before|]) > 0 then 1 else 0
  }

  function PowersTaken(codec: PointCodec, tau: Ceremony, calls: seq<Call>): nat {
    if calls == [] then 0
    else
      var before := calls[..|calls| - 1];
      PowersTaken(codec, tau, before) + Fetched(codec, CacheAfter(codec, tau, None, before), calls[|before|])
  }

  function LargestCapacity(calls: seq<Call>): nat {
    if calls == [] then 0
    else
      var before, last := LargestCapacity(calls[..|calls| - 1]), CapacityFor(calls[|calls| - 1].rows);
      if before < last then last else before
  }

  predicate Smooth(call: Call) {
    call.ResolveCall? && Sized(call.rows) && call.env == Env(true, true, Complete)
  }

  /** After `calls`, the cache holds 2^k powers, the most asked for; `k` bounds what it took to get there. */
  predicate Caught(codec: PointCodec, tau: Ceremony, calls: seq<Call>, k: nat) {
    && k < 59 && LargestCapacity(calls) == Pow2(k)
    && CacheAfter(codec, tau, None, calls) == Some(Encode(codec, Powers(tau, Pow2(k))))
    && Downloads(codec, tau, calls) <= k + 1
    && PowersTaken(codec, tau, calls) < 2 * Pow2(k)
  }

  lemma FirstCaught(codec: PointCodec, tau: Ceremony, call: Call, j: nat)
    requires Smooth(call) && CapacityFor(call.rows) == Pow2(j) && j < 59
    ensures Caught(codec, tau, [call], j)
  {
    assert [call][..0] == [];
  }

  lemma NextCaught(codec: PointCodec, tau: Ceremony, before: seq<Call>, call: Call, k: nat, j: nat)
    requires Lawful(codec) && Smooth(call) && CapacityFor(call.rows) == Pow2(j) && j < 59
    requires Caught(codec, tau, before, k)
    ensures Caught(codec, tau, before + [call], if k < j then j else k)
  {
    assert (before + [call])[..|before|] == before;
    SmoothAnswer(codec, tau, Pow2(k), k, call);
    if k < j {
      Pow2Monotonic(k, j);
    } else if j < k {
      Pow2Monotonic(j, k);
    }
  }

  lemma {:induction false} AlwaysCaught(codec: PointCodec, tau: Ceremony, calls: seq<Call>) returns (k: nat)
    requires Lawful(codec) && calls != []
    requires forall i :: 0 <= i < |calls| ==> Smooth(calls[i])
    ensures Caught(codec, tau, calls, k)
  {
    var before, last := calls[..|calls| - 1], calls[|calls| - 1];
    SmoothCapacity(last.rows);
    var j: nat :| CapacityFor(last.rows) == Pow2(j) && j < 59;
    if before == [] {
      assert calls == [last];
      FirstCaught(codec, tau, last, j);
      k := j;
    } else {
      var held := AlwaysCaught(codec, tau, before);
      assert calls == before + [last];
      NextCaught(codec, tau, before, last, held, j);
      k := if held < j then j else held;
    }
  }

  /** Undisturbed calls leave exactly the largest capacity asked for in the cache. Each download at
      least doubles it, so there are few of them and the last outweighs the rest. */
  lemma DownloadsBounded(codec: PointCodec, tau: Ceremony, calls: seq<Call>)
    requires Lawful(codec) && calls != []
    requires forall i :: 0 <= i < |calls| ==> Smooth(calls[i])
    ensures CacheAfter(codec, tau, None, calls) == Some(Encode(codec, Powers(tau, LargestCapacity(calls))))
    ensures Downloads(codec, tau, calls) <= Ilog2(LargestCapacity(calls)) + 1
    ensures PowersTaken(codec, tau, calls) < 2 * LargestCapacity(calls)
  {
    var k := AlwaysCaught(codec, tau, calls);
    Ilog2Pow2(k);
  }

  lemma SmoothCapacity(rows: usize)
    requires Sized(rows)
    ensures exists j: nat :: CapacityFor(rows) == Pow2(j) && j < 59
  {
    CapacityIsLeast(rows);
    SizedCapacity(rows);
    Pow2Values();
    var j: nat :| CapacityFor(rows) == Pow2(j);
    if j >= 59 { if j > 59 { Pow2Monotonic(59, j); } }
  }

  lemma SmoothAnswer(codec: PointCodec, tau: Ceremony, held: nat, k: nat, call: Call)
    requires Lawful(codec) && Smooth(call) && held == Pow2(k) && k < 59
    ensures var cache := Some(Encode(codec, Powers(tau, held)));
      && Fetched(codec, cache, call) == (if CapacityFor(call.rows) <= held then 0 else CapacityFor(call.rows))
      && Answer(codec, tau, cache, call).1 ==
           (if CapacityFor(call.rows) <= held then cache else Some(Encode(codec, Powers(tau, CapacityFor(call.rows)))))
  {
    var bytes := Encode(codec, Powers(tau, held));
    Pow2Values();
    Pow2Monotonic(k, 59);
    SizedCapacity(call.rows);
    EncodeLength(codec, Powers(tau, held));
    assert HoldsPowers(codec, tau, bytes, held);
    CacheReads(codec, tau, bytes, CapacityFor(call.rows));
    WrappedCapacity(call.rows);
  }

  // ---- Codecs of this kind exist ----

  function Digits(x: nat, width: nat): (digits: Bytes)
    ensures |digits| == width
  {
    if width == 0 then [] else [x % 256] + Digits(x / 256, width - 1)
  }

  function Undigits(bytes: Bytes): nat {
    if bytes == [] then 0 else bytes[0] + 256 * Undigits(bytes[1..])
  }

  function Pow256(width: nat): nat {
    if width == 0 then 1 else 256 * Pow256(width - 1)
  }

  lemma {:induction false} DigitsRoundTrip(x: nat, width: nat)
    requires x < Pow256(width)
    ensures Undigits(Digits(x, width)) == x
  {
    if width > 0 {
      DigitsRoundTrip(x / 256, width - 1);
      assert Digits(x, width)[1..] == Digits(x / 256, width - 1);
    }
  }

  /** Little-endian digits with a range check. */
  function DigitCodec(): PointCodec {
    PointCodec((p: Point) => Digits(p, POINT_SIZE),
               (bytes: Bytes) => if Undigits(bytes) < MODULUS then Some(Undigits(bytes)) else None)
  }

  lemma DigitCodecIsLawful()
    ensures Lawful(DigitCodec())
  {
    DigitsSuffice();
    forall p: Point
      ensures |DigitCodec().encode(p)| == POINT_SIZE && DigitCodec().decode(DigitCodec().encode(p)) == Some(p)
    {
      DigitsRoundTrip(p, POINT_SIZE);
    }
  }

  lemma DigitsSuffice()
    ensures MODULUS <= Pow256(POINT_SIZE)
  {
    assert Pow256(8) == TWO_64;
    assert Pow256(16) == TWO_64 * Pow256(8);
    assert Pow256(24) == TWO_64 * Pow256(16);
    assert Pow256(32) == TWO_64 * Pow256(24);
  }
}
