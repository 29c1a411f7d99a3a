/** The bloom filter of a log: 2048 bits, of which each item sets three. */
module LogsBloom {
  import opened HexText

  const BYTE_SIZE := 256

  // The hash of an item: 32 bytes. Any function will do here.
  type Hash = string -> seq<byte>

  ghost predicate IsHash(hash: Hash) {
    forall item :: |hash(item)| == 32
  }

  // `1 << n`
  function Mask(n: nat): (m: bv8)
    requires n < 8
  {
    match n
    case 0 => 1
    case 1 => 2
    case 2 => 4
    case 3 => 8
    case 4 => 16
    case 5 => 32
    case 6 => 64
    case _ => 128
  }

  predicate HasBit(b: bv8, n: nat)
    requires n < 8
  {
    b & Mask(n) != 0
  }

  lemma OrSetsOne(b: bv8, n: nat, k: nat)
    requires n < 8 && k < 8
    ensures HasBit(b | Mask(n), k) <==> HasBit(b, k) || k == n
  {
    var m, j := Mask(n), Mask(k);
    assert (b | m) & j == (b & j) | (m & j);
    assert k == n ==> m & j != 0;
    assert k != n ==> m & j == 0;
  }

  // The number of a bit an item sets: the low 11 bits of a big-endian pair of bytes of its hash.
  function Location(hash: seq<byte>, i: nat): (n: nat)
    requires |hash| == 32 && i < 3
    ensures n < 2048
  {
    (hash[2 * i] as int * 256 + hash[2 * i + 1]) % 2048
  }

  // Bit number n of the 2048-bit value whose first byte is the most significant.
  predicate BloomBit(bloom: seq<bv8>, n: nat)
    requires |bloom| == BYTE_SIZE && n < 2048
  {
    HasBit(bloom[BYTE_SIZE - 1 - n / 8], n % 8)
  }

  ghost predicate Sets(hash: Hash, item: string, n: nat)
    requires IsHash(hash)
  {
    exists i :: 0 <= i < 3 && Location(hash(item), i) == n
  }

  ghost predicate SomeSets(hash: Hash, items: seq<string>, n: nat)
    requires IsHash(hash)
  {
    exists k :: 0 <= k < |items| && Sets(hash, items[k], n)
  }

  // The bits set so far: those of the finished items, and the first i of the current one.
  ghost predicate SetSoFar(hash: Hash, items: seq<string>, k: nat, i: nat, n: nat)
    requires IsHash(hash) && k <= |items| && i <= 3
  {
    || SomeSets(hash, items[..k], n)
    || (k < |items| && exists j :: 0 <= j < i && Location(hash(items[k]), j) == n)
  }

  function Zeros(): (r: seq<bv8>)
    ensures |r| == BYTE_SIZE
  {
    seq(BYTE_SIZE, i => 0)
  }

  lemma SplitNumber(n: nat, m: nat)
    requires n / 8 == m / 8 && n % 8 == m % 8
    ensures n == m
  {
  }

  method SetBit(bits: array<bv8>, location: nat)
    requires bits.Length == BYTE_SIZE && location < 2048
    modifies bits
    ensures forall n :: 0 <= n < 2048 ==> BloomBit(bits[..], n) == (old(BloomBit(bits[..], n)) || n == location)
  {
    var byteLoc, bitLoc := location / 8, location % 8;
    var at := BYTE_SIZE - byteLoc - 1;
    ghost var was := bits[..];
    bits[at] := bits[at] | Mask(bitLoc);
    forall n | 0 <= n < 2048 ensures BloomBit(bits[..], n) == (BloomBit(was, n) || n == location) {
      OrSetsOne(was[at], bitLoc, n % 8);
      if n / 8 == byteLoc && n % 8 == bitLoc {
        SplitNumber(n, location);
      }
    }
  }

  // A bit is set exactly when there are an address and a topic and one of the items sets it.
  ghost predicate IsBloom(hash: Hash, address: string, topics: seq<string>, bloom: seq<bv8>)
    requires IsHash(hash)
  {
    |bloom| == BYTE_SIZE && forall n :: 0 <= n < 2048 ==>
      (BloomBit(bloom, n) <==> address != "" && topics != [] && SomeSets(hash, [address] + topics, n))
  }

  method BuildLogsBloom(hash: Hash, address: string, topics: seq<string>) returns (bloom: seq<bv8>)
    requires IsHash(hash)
    ensures IsBloom(hash, address, topics, bloom)
  {
    if address == "" || topics == [] {
      return Zeros();
    }
    var items := [address] + topics;
    var bits := new bv8[BYTE_SIZE](i => 0);
    for k := 0 to |items|
      invariant forall n :: 0 <= n < 2048 ==> BloomBit(bits[..], n) == SetSoFar(hash, items, k, 0, n)
    {
      var item := hash(items[k]);
      for i := 0 to 3
        invariant forall n :: 0 <= n < 2048 ==> BloomBit(bits[..], n) == SetSoFar(hash, items, k, i, n)
      {
        SetBit(bits, Location(item, i));
      }
      forall n | 0 <= n < 2048 ensures SetSoFar(hash, items, k, 3, n) == SetSoFar(hash, items, k + 1, 0, n) {
        NextItem(hash, items, k, n);
      }
    }
    assert items[..|items|] == items;
    return bits[..];
  }

  lemma NextItem(hash: Hash, items: seq<string>, k: nat, n: nat)
    requires IsHash(hash) && k < |items|
    ensures SetSoFar(hash, items, k, 3, n) == SetSoFar(hash, items, k + 1, 0, n)
  {
    assert items[..k + 1] == items[..k] + [items[k]];
    if SetSoFar(hash, items, k, 3, n) {
      if SomeSets(hash, items[..k], n) {
        var j :| 0 <= j < k && Sets(hash, items[..k][j], n);
        assert items[..k + 1][j] == items[..k][j];
      } else {
        assert Sets(hash, items[k], n) && items[..k + 1][k] == items[k];
      }
    }
    if SetSoFar(hash, items, k + 1, 0, n) {
      var j :| 0 <= j < k + 1 && Sets(hash, items[..k + 1][j], n);
      if j < k {
        assert items[..k][j] == items[..k + 1][j];
      }
    }
  }

  /******* What the bits say *******/

  lemma SameByte(a: bv8, b: bv8)
    requires forall k :: 0 <= k < 8 ==> HasBit(a, k) == HasBit(b, k)
    ensures a == b
  {
    assert HasBit(a, 0) == HasBit(b, 0) && HasBit(a, 1) == HasBit(b, 1) && HasBit(a, 2) == HasBit(b, 2);
    assert HasBit(a, 3) == HasBit(b, 3) && HasBit(a, 4) == HasBit(b, 4) && HasBit(a, 5) == HasBit(b, 5);
    assert HasBit(a, 6) == HasBit(b, 6) && HasBit(a, 7) == HasBit(b, 7);
  }

  lemma BitsDetermine(a: seq<bv8>, b: seq<bv8>)
    requires |a| == |b| == BYTE_SIZE
    requires forall n :: 0 <= n < 2048 ==> BloomBit(a, n) == BloomBit(b, n)
    ensures a == b
  {
    forall at | 0 <= at < BYTE_SIZE ensures a[at] == b[at] {
      forall k | 0 <= k < 8 ensures HasBit(a[at], k) == HasBit(b[at], k) {
        var n := (BYTE_SIZE - 1 - at) * 8 + k;
        assert n / 8 == BYTE_SIZE - 1 - at && n % 8 == k;
        assert BloomBit(a, n) == BloomBit(b, n);
      }
      SameByte(a[at], b[at]);
    }
  }

  lemma MoreItemsSet(hash: Hash, items: seq<string>, others: seq<string>, n: nat)
    requires IsHash(hash) && SomeSets(hash, items, n)
    requires forall item :: item in items ==> item in others
    ensures SomeSets(hash, others, n)
  {
    var k :| 0 <= k < |items| && Sets(hash, items[k], n);
    assert items[k] in others;
    var j :| 0 <= j < |others| && others[j] == items[k];
  }

  lemma MaskShifts(n: nat)
    requires n < 8
    ensures Mask(n) == (1 as bv8) << n
  {
    if n == 0 {
      assert (1 as bv8) << 0 == 1;
    } else if n == 1 {
      assert (1 as bv8) << 1 == 2;
    } else if n == 2 {
      assert (1 as bv8) << 2 == 4;
    } else if n == 3 {
      assert (1 as bv8) << 3 == 8;
    } else if n == 4 {
      assert (1 as bv8) << 4 == 16;
    } else if n == 5 {
      assert (1 as bv8) << 5 == 32;
    } else if n == 6 {
      assert (1 as bv8) << 6 == 64;
    } else {
      assert (1 as bv8) << 7 == 128;
    }
  }

  // One of the first three pairs of bytes of the hash, most significant first, is the number modulo 2048.
  ghost predicate PairGives(hash: Hash, item: string, n: nat)
    requires IsHash(hash)
  {
    exists i :: 0 <= i < 3 && (hash(item)[2 * i] as int * 256 + hash(item)[2 * i + 1]) % 2048 == n
  }

  // Bit by bit: the big-endian pairs 0, 1 and 2 of the hash of the address and of each topic, modulo 2048, number the
  // bits that are set, counted from the last byte and its lowest bit; without an address or a topic none is.
  lemma BloomExact(hash: Hash, address: string, topics: seq<string>, bloom: seq<bv8>, n: nat)
    requires IsHash(hash) && IsBloom(hash, address, topics, bloom) && n < 2048
    ensures |bloom| == 256
    ensures bloom[255 - n / 8] & ((1 as bv8) << (n % 8)) != 0 <==>
            address != "" && topics != []
            && exists item :: (item == address || item in topics) && PairGives(hash, item, n)
  {
    MaskShifts(n % 8);
    var items := [address] + topics;
    if SomeSets(hash, items, n) {
      var k :| 0 <= k < |items| && Sets(hash, items[k], n);
      var i :| 0 <= i < 3 && Location(hash(items[k]), i) == n;
      assert items[k] == address || items[k] in topics;
      assert (hash(items[k])[2 * i] as int * 256 + hash(items[k])[2 * i + 1]) % 2048 == n;
      assert PairGives(hash, items[k], n);
    }
    if item :| (item == address || item in topics) && PairGives(hash, item, n) {
      assert item in items;
      var k :| 0 <= k < |items| && items[k] == item;
      var i :| 0 <= i < 3 && (hash(item)[2 * i] as int * 256 + hash(item)[2 * i + 1]) % 2048 == n;
      assert Location(hash(item), i) == n;
      assert Sets(hash, items[k], n);
    }
  }

  // Adding topics only adds bits.
  lemma BloomGrows(hash: Hash, address: string, topics: seq<string>, others: seq<string>,
                   bloom: seq<bv8>, bigger: seq<bv8>, n: nat)
    requires IsHash(hash) && IsBloom(hash, address, topics, bloom) && IsBloom(hash, address, others, bigger)
    requires (forall topic :: topic in topics ==> topic in others) && n < 2048
    ensures BloomBit(bloom, n) ==> BloomBit(bigger, n)
  {
    if BloomBit(bloom, n) {
      assert topics[0] in others;
      MoreItemsSet(hash, [address] + topics, [address] + others, n);
    }
  }

  // The order of topics and their repetition make no difference.
  lemma BloomOfSet(hash: Hash, address: string, topics: seq<string>, others: seq<string>,
                   bloom: seq<bv8>, other: seq<bv8>)
    requires IsHash(hash) && IsBloom(hash, address, topics, bloom) && IsBloom(hash, address, others, other)
    requires forall topic :: topic in topics <==> topic in others
    ensures bloom == other
  {
    forall n | 0 <= n < 2048 ensures BloomBit(bloom, n) == BloomBit(other, n) {
      BloomGrows(hash, address, topics, others, bloom, other, n);
      BloomGrows(hash, address, others, topics, other, bloom, n);
    }
    BitsDetermine(bloom, other);
  }

  // No false negatives, as long as there is a topic.
  lemma ItemsFound(hash: Hash, address: string, topics: seq<string>, bloom: seq<bv8>, item: string, i: nat)
    requires IsHash(hash) && IsBloom(hash, address, topics, bloom) && i < 3
    requires address != "" && topics != [] && (item == address || item in topics)
    ensures BloomBit(bloom, Location(hash(item), i))
  {
    var items := [address] + topics;
    assert item in items;
    var k :| 0 <= k < |items| && items[k] == item;
    assert Sets(hash, items[k], Location(hash(item), i));
  }
}
