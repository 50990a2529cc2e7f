/** The SDK's helpers: argument validators, address lower-casing and
    encoding, decimal scaling, and splitting an array into batches. */
module SdkHelpers {
  import opened Wrappers
  import opened JsValues
  import Text
  import EthersUtils
  import BigNum

  /** The errors the helpers throw. */
  datatype Thrown =
    | InvalidAddress
    | InvalidBigNumber
    | InvalidBoolean
    | NegativePower
    | Hex(reason: EthersUtils.HexError)

  // ---------------------------------------------------------------------------
  // Validators: `None` when the call returns, `Some(e)` when it throws `e`.

  /** `ethers.utils.isAddress(v)`: only a string can be an address. The text
      test is reduced to 40 hex digits, with or without `0x`; the checksum test
      is not part of this model. */
  predicate EthersIsAddress(v: JsValue)
  {
    v.Str? &&
    ((|v.s| == 42 && EthersUtils.IsHexString(v.s)) ||
     (|v.s| == 40 && EthersUtils.IsHexString("0x" + v.s)))
  }

  /** `isAddress`: throws only when the argument is neither a string nor an
      address. */
  function IsAddress(v: JsValue): (r: Option<Thrown>)
    ensures r.None? <==> v.Str?
    ensures r.Some? ==> r.value == InvalidAddress
  {
    if !v.Str? && !EthersIsAddress(v) then Some(InvalidAddress) else None
  }

  /** `isBigNumber`: accepts a number, a string or a BigNumber object. */
  function IsBigNumber(v: JsValue): (r: Option<Thrown>)
    ensures r.None? <==> v.Num? || v.Str? || v.BigNumber?
    ensures r.Some? ==> r.value == InvalidBigNumber
  {
    if !v.Num? && !v.Str? && !v.BigNumber? then Some(InvalidBigNumber) else None
  }

  /** `isBoolean`: accepts a boolean only. */
  function IsBoolean(v: JsValue): (r: Option<Thrown>)
    ensures r.None? <==> v.Bool?
    ensures r.Some? ==> r.value == InvalidBoolean
  {
    if !v.Bool? then Some(InvalidBoolean) else None
  }

  // ---------------------------------------------------------------------------
  // Addresses

  /** `ethAddressLowerCase`. */
  function EthAddressLowerCase(address: string): (r: string)
    ensures |r| == |address|
    ensures forall k :: 0 <= k < |r| ==> !('A' <= r[k] <= 'Z')
    ensures forall k :: 0 <= k < |r| ==> Text.LowerChar(r[k]) == Text.LowerChar(address[k])
  {
    Text.Lower(address)
  }

  /** Lower-casing twice is lower-casing once. */
  lemma EthAddressLowerCaseIdempotent(address: string)
    ensures EthAddressLowerCase(EthAddressLowerCase(address)) == EthAddressLowerCase(address)
  {
    var once := EthAddressLowerCase(address);
    assert forall k :: 0 <= k < |once| ==> Text.LowerChar(once[k]) == once[k];
  }

  /** A canonical address text: `0x` and 40 hex digits. */
  predicate WellFormedAddress(a: string)
  {
    |a| == 42 && EthersUtils.IsHexString(a)
  }

  /** `address.substring(2, 42)` of each address, in order. */
  function AddressBodies(addresses: seq<string>): (bodies: seq<string>)
    ensures |bodies| == |addresses|
    ensures forall k :: 0 <= k < |addresses| ==> bodies[k] == Text.Substring(addresses[k], 2, 42)
  {
    seq(|addresses|, k requires 0 <= k < |addresses| => Text.Substring(addresses[k], 2, 42))
  }

  /** `encodeAddressArray`: the address bodies after `0x`, passed through
      `hexlify`. */
  function EncodeAddressArray(addresses: seq<string>): (r: Result<string, Thrown>)
    ensures r.Ok? ==> |r.value| >= 2 && r.value[..2] == "0x"
    ensures r.Err? ==> r.error.Hex?
  {
    var h := EthersUtils.Hexlify("0x" + Text.Concat(AddressBodies(addresses)));
    if h.Err? then Err(Hex(h.error)) else Ok(h.value)
  }

  /** An empty list encodes as `0x`. */
  lemma EncodeEmpty()
    ensures EncodeAddressArray([]) == Ok("0x")
  {
    assert "0x" + Text.Concat(AddressBodies([])) == "0x";
    EthersUtils.HexlifyLowerCase("0x");
  }

  /** Well-formed addresses encode as `0x` and then, for each address in order,
      its 40 hex digits in lower case. */
  lemma {:induction false} EncodeWellFormed(addresses: seq<string>)
    requires forall k :: 0 <= k < |addresses| ==> WellFormedAddress(addresses[k])
    ensures EncodeAddressArray(addresses).Ok?
    ensures var e := EncodeAddressArray(addresses).value;
      |e| == 2 + 40 * |addresses| && e[..2] == "0x" &&
      forall k :: 0 <= k < |addresses| ==> e[2 + 40 * k..2 + 40 * k + 40] == Text.Lower(Text.Substring(addresses[k], 2, 42))
  {
    var bodies := AddressBodies(addresses);
    var hex := "0x" + Text.Concat(bodies);
    forall k | 0 <= k < |addresses|
      ensures |bodies[k]| == 40 && bodies[k] == addresses[k][2..42]
    {
    }
    if |addresses| == 0 {
      EncodeEmpty();
    } else {
      ConcatBodies(addresses, 0);
      assert |hex| == 2 + 40 * |addresses|;
      assert |hex| % 2 == 0 by {
        assert 2 + 40 * |addresses| == 2 * (1 + 20 * |addresses|);
      }
      forall j | 2 <= j < |hex|
        ensures EthersUtils.IsHexDigit(hex[j])
      {
        BodiesHexDigit(addresses, j - 2);
      }
      assert EthersUtils.IsHexString(hex);
      var e := EncodeAddressArray(addresses).value;
      forall k | 0 <= k < |addresses|
        ensures e[2 + 40 * k..2 + 40 * k + 40] == Text.Lower(Text.Substring(addresses[k], 2, 42))
      {
        ConcatBodies(addresses, k);
        assert hex[2 + 40 * k..2 + 40 * k + 40] == bodies[k];
      }
    }
  }

  /** Every character of the concatenated bodies of well-formed addresses is
      a hex digit. */
  lemma BodiesHexDigit(addresses: seq<string>, j: nat)
    requires forall i :: 0 <= i < |addresses| ==> WellFormedAddress(addresses[i])
    requires j < 40 * |addresses|
    ensures |Text.Concat(AddressBodies(addresses))| == 40 * |addresses|
    ensures EthersUtils.IsHexDigit(Text.Concat(AddressBodies(addresses))[j])
  {
    var k := j / 40;
    BigNum.DivBounds(j, 40);
    assert k < |addresses| by {
      if k >= |addresses| {
        BigNum.MulMonotone(40, |addresses|, k);
      }
    }
    ConcatBodies(addresses, k);
    var c := Text.Concat(AddressBodies(addresses));
    var a := addresses[k];
    assert c[40 * k..40 * k + 40] == a[2..42];
    assert c[j] == a[2..42][j - 40 * k];
    assert a[2..42][j - 40 * k] == a[j - 40 * k + 2];
  }

  lemma ConcatBodies(addresses: seq<string>, k: nat)
    requires forall i :: 0 <= i < |addresses| ==> WellFormedAddress(addresses[i])
    requires k < |addresses|
    ensures |Text.Concat(AddressBodies(addresses))| == 40 * |addresses|
    ensures 40 * k + 40 <= |Text.Concat(AddressBodies(addresses))|
    ensures Text.Concat(AddressBodies(addresses))[40 * k..40 * k + 40] == Text.Substring(addresses[k], 2, 42)
  {
    var bodies := AddressBodies(addresses);
    Text.ConcatUniformLength(bodies, 40);
    Text.ConcatUniformAt(bodies, 40, k);
  }

  // ---------------------------------------------------------------------------
  // Decimal scaling

  /** `toWei(amount, decimals)`: scales an amount with `decimals` decimals to
      18 decimals; `pow` throws for more than 18 decimals. */
  function ToWei(amount: int, decimals: int): (r: Result<int, Thrown>)
    ensures r.Err? <==> decimals > 18
    ensures r.Ok? ==> r.value == amount * BigNum.Pow10(18 - decimals)
  {
    if 18 - decimals < 0 then Err(NegativePower) else Ok(amount * BigNum.Pow10(18 - decimals))
  }

  /** An 18-decimal amount is unchanged, and a 6-decimal one is scaled by 10^12. */
  lemma ToWeiExamples(amount: int)
    ensures ToWei(amount, 18) == Ok(amount)
    ensures ToWei(amount, 6) == Ok(amount * 1_000_000_000_000)
  {
    assert BigNum.Pow10(12) == 1_000_000_000_000;
  }

  // ---------------------------------------------------------------------------
  // Batching

  /** A JavaScript array that a callee may change in place. */
  class JsArray<T> {
    var items: seq<T>

    constructor(items0: seq<T>)
      ensures items == items0
    {
      items := items0;
    }
  }

  /** `s.splice(start, deleteCount)` for non-negative arguments: the removed
      elements, and what is left. */
  function Splice<T>(s: seq<T>, start: nat, deleteCount: nat): (r: (seq<T>, seq<T>))
    ensures |r.0| <= deleteCount
    ensures start + deleteCount <= |s| ==> r.0 == s[start..start + deleteCount] && r.1 == s[..start] + s[start + deleteCount..]
  {
    var a := Text.Min(start, |s|);
    var b := Text.Min(a + deleteCount, |s|);
    (s[a..b], s[..a] + s[b..])
  }

  /** Splicing loses no element: the removed ones and those left are together
      the original ones. */
  lemma SpliceKeeps<T>(s: seq<T>, start: nat, deleteCount: nat)
    ensures var r := Splice(s, start, deleteCount);
      multiset(r.0) + multiset(r.1) == multiset(s)
  {
    var a := Text.Min(start, |s|);
    var b := Text.Min(a + deleteCount, |s|);
    assert s == s[..a] + s[a..b] + s[b..];
  }

  /** `batchLimit * i`, built up by addition so that the index arithmetic of
      the batching loop stays linear; `ScaledIsProduct` ties it to the product. */
  function Scaled(batchLimit: nat, i: nat): nat
  {
    if i == 0 then 0 else Scaled(batchLimit, i - 1) + batchLimit
  }

  lemma {:induction false} ScaledIsProduct(batchLimit: nat, i: nat)
    ensures Scaled(batchLimit, i) == batchLimit * i
  {
    if i > 0 {
      ScaledIsProduct(batchLimit, i - 1);
      assert batchLimit * i == batchLimit * (i - 1) + batchLimit;
    }
  }

  lemma {:induction false} ScaledMonotone(batchLimit: nat, i: nat, j: nat)
    requires i <= j
    ensures Scaled(batchLimit, i) <= Scaled(batchLimit, j)
    decreases j
  {
    if i < j {
      ScaledMonotone(batchLimit, i, j - 1);
    }
  }

  /** `Math.floor(n / batchLimit)` as a loop bound: a negative quotient runs
      no iteration. */
  function BatchCount(n: nat, batchLimit: int): (c: nat)
    requires batchLimit != 0 || n == 0
    ensures batchLimit <= 0 ==> c == 0
  {
    if batchLimit > 0 then n / batchLimit else 0
  }

  /** For a positive limit the loop runs as many times as whole batches fit. */
  lemma BatchCountBounds(n: nat, batchLimit: int)
    requires batchLimit > 0
    ensures var c := BatchCount(n, batchLimit);
      Scaled(batchLimit, c) <= n < Scaled(batchLimit, c + 1)
  {
    var c := BatchCount(n, batchLimit);
    BigNum.DivBounds(n, batchLimit);
    ScaledIsProduct(batchLimit, c);
    ScaledIsProduct(batchLimit, c + 1);
  }

  /** The batches pushed and the array left after `i` iterations of the loop
      of `batchArray` as written: iteration `j` splices at `batchLimit * j`
      from the array the earlier iterations have already shortened. */
  function BatchedAsWritten<T>(s: seq<T>, batchLimit: nat, i: nat): (r: (seq<seq<T>>, seq<T>))
    ensures |r.0| == i
    ensures forall k :: 0 <= k < i ==> |r.0[k]| <= batchLimit
    decreases i
  {
    if i == 0 then ([], s)
    else
      var prev := BatchedAsWritten(s, batchLimit, i - 1);
      var spliced := Splice(prev.1, Scaled(batchLimit, i - 1), batchLimit);
      (prev.0 + [spliced.0], spliced.1)
  }

  /** `batchArray(arr, batchLimit)`: removes the batched elements from `arr` in
      place and returns the batches. A zero limit on a non-empty array loops
      forever in the source. */
  method BatchArray<T>(arr: JsArray<T>, batchLimit: int) returns (batch: seq<seq<T>>)
    requires batchLimit != 0 || |arr.items| == 0
    modifies arr
    ensures var n := |old(arr.items)|;
      (batch, arr.items) == BatchedAsWritten(old(arr.items), if batchLimit > 0 then batchLimit else 0, BatchCount(n, batchLimit))
  {
    ghost var s := arr.items;
    ghost var limit: nat := if batchLimit > 0 then batchLimit else 0;
    var batchCount := BatchCount(|arr.items|, batchLimit);
    batch := [];
    var i := 0;
    while i < batchCount
      invariant 0 <= i <= batchCount
      invariant (batch, arr.items) == BatchedAsWritten(s, limit, i)
    {
      ScaledIsProduct(limit, i);
      var spliced := Splice(arr.items, batchLimit * i, batchLimit);
      arr.items := spliced.1;
      batch := batch + [spliced.0];
      i := i + 1;
    }
  }

  /** All the elements of a list of batches. */
  function Flatten<T>(batches: seq<seq<T>>): multiset<T>
  {
    if |batches| == 0 then multiset{} else Flatten(batches[..|batches| - 1]) + multiset(batches[|batches| - 1])
  }

  lemma FlattenAppend<T>(batches: seq<seq<T>>, b: seq<T>)
    ensures Flatten(batches + [b]) == Flatten(batches) + multiset(b)
  {
    assert (batches + [b])[..|batches|] == batches;
  }

  /** Batching keeps every element: the batches and what is left of the array
      are together the original elements. */
  lemma {:induction false} BatchedKeepsElements<T>(s: seq<T>, batchLimit: nat, i: nat)
    ensures var r := BatchedAsWritten(s, batchLimit, i);
      Flatten(r.0) + multiset(r.1) == multiset(s)
  {
    if i == 0 {
      assert BatchedAsWritten(s, batchLimit, 0) == ([], s);
      assert Flatten<T>([]) == multiset{};
    } else {
      BatchedKeepsElements(s, batchLimit, i - 1);
      var prev := BatchedAsWritten(s, batchLimit, i - 1);
      var spliced := Splice(prev.1, Scaled(batchLimit, i - 1), batchLimit);
      SpliceKeeps(prev.1, Scaled(batchLimit, i - 1), batchLimit);
      FlattenAppend(prev.0, spliced.0);
      var r := BatchedAsWritten(s, batchLimit, i);
      assert r.0 == prev.0 + [spliced.0] && r.1 == spliced.1;
      calc {
        Flatten(r.0) + multiset(r.1);
        Flatten(prev.0) + multiset(spliced.0) + multiset(spliced.1);
        Flatten(prev.0) + multiset(prev.1);
      }
    }
  }

  /** The first batch is the original first `batchLimit` elements. */
  lemma FirstBatch<T>(s: seq<T>, batchLimit: nat)
    requires batchLimit <= |s|
    ensures BatchedAsWritten(s, batchLimit, 1).0 == [s[..batchLimit]]
  {
  }

  /** The loop as written skips elements: from six elements in batches of two
      it returns `[a0, a1]`, `[a4, a5]` and an empty third batch, and leaves
      `[a2, a3]` in the array. */
  lemma BatchedAsWrittenSkips()
    ensures BatchedAsWritten([0, 1, 2, 3, 4, 5], 2, BatchCount(6, 2)) == ([[0, 1], [4, 5], []], [2, 3])
  {
    var s: seq<int> := [0, 1, 2, 3, 4, 5];
    assert BatchCount(6, 2) == 3;
    var r1 := BatchedAsWritten(s, 2, 1);
    var sp1 := Splice(s, Scaled(2, 0), 2);
    assert r1 == ([] + [sp1.0], sp1.1);
    assert Scaled(2, 0) == 0;
    assert sp1.0 == s[0..2];
    assert sp1.1 == s[..0] + s[2..];
    assert s[0..2] == [0, 1];
    assert s[..0] + s[2..] == [2, 3, 4, 5];
    assert sp1 == ([0, 1], [2, 3, 4, 5]);
    var r2 := BatchedAsWritten(s, 2, 2);
    var sp2 := Splice(r1.1, Scaled(2, 1), 2);
    assert r2 == (r1.0 + [sp2.0], sp2.1);
    var t := r1.1;
    assert t == [2, 3, 4, 5] && Scaled(2, 1) == 2;
    assert sp2.0 == t[2..4] && sp2.1 == t[..2] + t[4..];
    assert t[2..4] == [4, 5] && t[..2] + t[4..] == [2, 3];
    assert r2.0 == [[0, 1], [4, 5]];
    var r3 := BatchedAsWritten(s, 2, 3);
    var sp3 := Splice(r2.1, Scaled(2, 2), 2);
    assert r3 == (r2.0 + [sp3.0], sp3.1);
    var u := r2.1;
    assert u == [2, 3] && Scaled(2, 2) == 4;
    assert sp3.0 == u[2..2] && sp3.1 == u[..2] + u[2..];
    assert u[..2] + u[2..] == u;
    assert r3.0 == [[0, 1], [4, 5], []];
  }

  /** The batches the loop evidently intends: consecutive runs of `batchLimit`
      elements, as many as fit. */
  function Chunks<T>(s: seq<T>, batchLimit: nat, i: nat): (r: seq<seq<T>>)
    requires Scaled(batchLimit, i) <= |s|
    ensures |r| == i
    ensures forall k :: 0 <= k < i ==> |r[k]| == batchLimit
    decreases i
  {
    if i == 0 then []
    else Chunks(s, batchLimit, i - 1) + [s[Scaled(batchLimit, i - 1)..Scaled(batchLimit, i)]]
  }

  /** `batchArray` with the splice at the front of the shortened array, as
      intended: each iteration takes the next `batchLimit` elements. */
  method BatchArrayCorrected<T>(arr: JsArray<T>, batchLimit: int) returns (batch: seq<seq<T>>)
    requires batchLimit != 0 || |arr.items| == 0
    modifies arr
    ensures var c := BatchCount(|old(arr.items)|, batchLimit);
      var limit: nat := if batchLimit > 0 then batchLimit else 0;
      Scaled(limit, c) <= |old(arr.items)| &&
      batch == Chunks(old(arr.items), limit, c) && arr.items == old(arr.items)[Scaled(limit, c)..]
  {
    ghost var s := arr.items;
    ghost var limit: nat := if batchLimit > 0 then batchLimit else 0;
    var batchCount := BatchCount(|arr.items|, batchLimit);
    if batchLimit > 0 {
      BatchCountBounds(|arr.items|, batchLimit);
    }
    batch := [];
    var i := 0;
    ghost var taken := 0;
    while i < batchCount
      invariant 0 <= i <= batchCount && taken == Scaled(limit, i) && Scaled(limit, batchCount) <= |s|
      invariant taken <= |s| && batch == Chunks(s, limit, i) && arr.items == s[taken..]
    {
      ScaledMonotone(limit, i + 1, batchCount);
      assert Scaled(limit, i + 1) == taken + limit;
      assert Chunks(s, limit, i + 1) == batch + [s[taken..taken + limit]];
      assert arr.items[0..limit] == s[taken..taken + limit];
      assert arr.items[limit..] == s[taken + limit..];
      var spliced := Splice(arr.items, 0, batchLimit);
      arr.items := spliced.1;
      batch := batch + [spliced.0];
      i := i + 1;
      taken := taken + limit;
    }
  }

  function ConcatSeqs<T>(batches: seq<seq<T>>): seq<T>
  {
    if |batches| == 0 then [] else ConcatSeqs(batches[..|batches| - 1]) + batches[|batches| - 1]
  }

  /** The intended batches are the array's first `batchLimit * i` elements,
      in order. */
  lemma {:induction false} ChunksCover<T>(s: seq<T>, batchLimit: nat, i: nat)
    requires Scaled(batchLimit, i) <= |s|
    ensures ConcatSeqs(Chunks(s, batchLimit, i)) == s[..Scaled(batchLimit, i)]
  {
    if i > 0 {
      var lo, hi := Scaled(batchLimit, i - 1), Scaled(batchLimit, i);
      ChunksCover(s, batchLimit, i - 1);
      var prev := Chunks(s, batchLimit, i - 1);
      assert (prev + [s[lo..hi]])[..i - 1] == prev;
      assert s[..lo] + s[lo..hi] == s[..hi];
    }
  }
}
