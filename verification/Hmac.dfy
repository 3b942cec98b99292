/** The streaming HMAC that replaces the provider dispatcher, against section 2
    of RFC 2104. The digests are a parameter: any function from algorithm and
    message to a digest of the algorithm's size. */
module Hmac {
  import opened Basics

  type Byte = bv8
  type Bytes = seq<Byte>

  datatype Algorithm = Sha1 | Sha256 | Sha512

  type Hash = (Algorithm, Bytes) -> Bytes

  function BlockSize(a: Algorithm): nat { if a == Sha512 then 128 else 64 }

  function OutputSize(a: Algorithm): nat
  {
    match a
    case Sha1 => 20
    case Sha256 => 32
    case Sha512 => 64
  }

  ghost predicate IsHash(hash: Hash)
  {
    forall a, m :: |hash(a, m)| == OutputSize(a)
  }

  // ------------------------------------------------ section 2 of RFC 2104

  function Xor(a: Byte, b: Byte): Byte { a ^ b }

  /** The key, hashed when longer than a block, with zeros up to a block. */
  function BlockKey(hash: Hash, a: Algorithm, key: Bytes): Bytes
  {
    var k := if |key| > BlockSize(a) then hash(a, key) else key;
    k + seq(if |k| < BlockSize(a) then BlockSize(a) - |k| else 0, _ => 0)
  }

  function XorAll(k: Bytes, pad: Byte): (r: Bytes)
    ensures |r| == |k| && forall i :: 0 <= i < |k| ==> r[i] == Xor(k[i], pad)
  {
    seq(|k|, i requires 0 <= i < |k| => Xor(k[i], pad))
  }

  const IPAD: Byte := 0x36
  const OPAD: Byte := 0x5c

  function Rfc2104(hash: Hash, a: Algorithm, key: Bytes, message: Bytes): Bytes
  {
    var k := BlockKey(hash, a, key);
    hash(a, XorAll(k, OPAD) + hash(a, XorAll(k, IPAD) + message))
  }

  // ------------------------------------------------------ digest selection

  datatype Parameter = Parameter(key: string, data: Option<string>)

  method AsciiEqual(value: Option<string>, expected: string) returns (equal: bool)
    ensures equal <==> value.Some? && LowerAll(value.value) == expected
    ensures equal <==>
              && value.Some? && |value.value| == |expected|
              && forall i :: 0 <= i < |expected| ==>
                   var c := value.value[i];
                   expected[i] == if 'A' <= c <= 'Z' then (c as int - 'A' as int + 'a' as int) as char else c
  {
    if value == None || |value.value| != |expected| { return false; }
    for i := 0 to |expected|
      invariant forall j :: 0 <= j < i ==> Lower(value.value[j]) == expected[j]
    {
      if Lower(value.value[i]) != expected[i] {
        assert LowerAll(value.value)[i] != expected[i];
        return false;
      }
    }
    equal := true;
  }

  function Named(data: Option<string>): Option<Algorithm>
  {
    if data == None then None
    else
      var name := LowerAll(data.value);
      if name == "sha1" then Some(Sha1)
      else if name == "sha256" then Some(Sha256)
      else if name == "sha512" then Some(Sha512)
      else None
  }

  /** The first `digest` parameter decides, in any letter case. */
  function Selected(parameters: seq<Parameter>): Option<Algorithm>
  {
    if parameters == [] then None
    else if parameters[0].key == "digest" then Named(parameters[0].data)
    else Selected(parameters[1..])
  }

  /** The first `digest` parameter stands at `i`. */
  ghost predicate DigestAt(parameters: seq<Parameter>, i: nat)
  {
    i < |parameters| && parameters[i].key == "digest" && forall j :: 0 <= j < i ==> parameters[j].key != "digest"
  }

  method SelectAlgorithm(parameters: seq<Parameter>) returns (r: Option<Algorithm>)
    ensures r == Selected(parameters)
    ensures forall i: nat :: DigestAt(parameters, i) ==>
              var d := parameters[i].data;
              && (r == Some(Sha1) <==> d.Some? && LowerAll(d.value) == "sha1")
              && (r == Some(Sha256) <==> d.Some? && LowerAll(d.value) == "sha256")
              && (r == Some(Sha512) <==> d.Some? && LowerAll(d.value) == "sha512")
    ensures (forall i :: 0 <= i < |parameters| ==> parameters[i].key != "digest") ==> r == None
  {
    var i := 0;
    while i < |parameters|
      invariant i <= |parameters| && Selected(parameters) == Selected(parameters[i..])
      invariant forall j :: 0 <= j < i ==> parameters[j].key != "digest"
    {
      if parameters[i].key == "digest" {
        var data := parameters[i].data;
        var one := AsciiEqual(data, "sha1");
        if one { return Some(Sha1); }
        var two := AsciiEqual(data, "sha256");
        if two { return Some(Sha256); }
        var five := AsciiEqual(data, "sha512");
        if five { return Some(Sha512); }
        return None;
      }
      assert parameters[i..][1..] == parameters[i + 1..];
      i := i + 1;
    }
    r := None;
  }

  // ------------------------------------------------------ streaming digests

  /** A digest context: the bytes absorbed since its init, or, cleared or after
      its final, a state about which nothing is known. */
  datatype Digest = Spent | Absorbed(data: Bytes)

  // -------------------------------------------------------------- the code

  class Context {
    const hash: Hash
    var algorithm: Option<Algorithm>
    var inner: Digest
    var outer: Digest

    constructor (hash: Hash)
      ensures this.hash == hash && algorithm == None && inner == Spent && outer == Spent
    {
      this.hash := hash;
      algorithm, inner, outer := None, Spent, Spent;
    }

    /** Ready to authenticate: keyed, with `message` fed so far. */
    ghost predicate Fed(a: Algorithm, key: Bytes, message: Bytes)
      reads this
    {
      && algorithm == Some(a)
      && inner == Absorbed(XorAll(BlockKey(hash, a, key), IPAD) + message)
      && outer == Absorbed(XorAll(BlockKey(hash, a, key), OPAD))
    }

    /** Refused without a key (then nothing changes) or a known digest (then the
        context is cleared); keyed and ready otherwise. */
    method Init(key: Option<Bytes>, parameters: seq<Parameter>) returns (ok: bool)
      requires IsHash(hash)
      modifies this
      ensures ok <==> key.Some? && Selected(parameters).Some?
      ensures key == None ==> algorithm == old(algorithm) && inner == old(inner) && outer == old(outer)
      ensures key.Some? && Selected(parameters) == None ==> algorithm == None && inner == Spent && outer == Spent
      ensures ok ==> Fed(Selected(parameters).value, key.value, [])
    {
      if key == None { return false; }
      algorithm, inner, outer := None, Spent, Spent;
      algorithm := SelectAlgorithm(parameters);
      if algorithm == None { return false; }
      var a := algorithm.value;
      var effective := key.value;
      if |effective| > BlockSize(a) {
        effective := hash(a, effective);
        assert |effective| == OutputSize(a);
      }
      var innerPad, outerPad := MakePads(BlockSize(a), effective);
      inner, outer := Absorbed(innerPad), Absorbed(outerPad);
      assert innerPad + [] == innerPad;
      ok := true;
    }

    /** The pad arrays of the largest block size, filled and XORed in place. */
    static method MakePads(block: nat, key: Bytes) returns (innerPad: Bytes, outerPad: Bytes)
      requires |key| <= block <= 128
      ensures var k := key + seq(block - |key|, _ => 0);
              innerPad == XorAll(k, IPAD) && outerPad == XorAll(k, OPAD)
    {
      hide Xor;
      var ip, op := new Byte[128], new Byte[128];
      for i := 0 to block
        invariant forall j :: 0 <= j < i ==> ip[j] == IPAD && op[j] == OPAD
      {
        ip[i], op[i] := IPAD, OPAD;
      }
      for i := 0 to |key|
        invariant forall j :: 0 <= j < i ==> ip[j] == Xor(IPAD, key[j]) && op[j] == Xor(OPAD, key[j])
        invariant forall j :: i <= j < block ==> ip[j] == IPAD && op[j] == OPAD
      {
        ip[i], op[i] := Xor(ip[i], key[i]), Xor(op[i], key[i]);
      }
      innerPad, outerPad := ip[..block], op[..block];
      ghost var k := key + seq(block - |key|, _ => 0);
      forall i | 0 <= i < block ensures innerPad[i] == Xor(k[i], IPAD) && outerPad[i] == Xor(k[i], OPAD) {
        XorLaws(if i < |key| then key[i] else 0, IPAD);
        XorLaws(if i < |key| then key[i] else 0, OPAD);
      }
    }

    /** Refused before a successful init, or for a null input with a length. */
    method Update(input: Option<Bytes>, size: nat) returns (ok: bool)
      requires input.Some? ==> |input.value| == size
      modifies `inner
      ensures ok <==> (input.Some? || size == 0) && algorithm.Some?
      ensures !ok ==> inner == old(inner)
      ensures ok && old(inner).Absorbed? ==> inner == Absorbed(old(inner).data + if input.Some? then input.value else [])
      ensures ok && old(inner).Spent? ==> inner == Spent
    {
      if (input == None && size != 0) || algorithm == None { return false; }
      if inner.Absorbed? {
        inner := Absorbed(inner.data + if input.Some? then input.value else []);
      }
      ok := true;
    }

    /** A null output only asks for the size and changes nothing; otherwise the
        tag goes to the front of `output`, whose rest stays as it was. */
    method Final(output: array?<Byte>, capacity: nat, wantsSize: bool) returns (ok: bool, size: Option<nat>)
      requires IsHash(hash) && (output != null ==> capacity <= output.Length)
      modifies this, output
      ensures size == if wantsSize && algorithm.Some? then Some(OutputSize(algorithm.value)) else None
      ensures algorithm == old(algorithm)
      ensures ok <==> size.Some? && (output == null || size.value <= capacity)
      ensures output == null || !ok ==> inner == old(inner) && outer == old(outer)
      ensures output != null && !ok ==> output[..] == old(output[..])
      ensures output != null && ok ==> output[size.value..] == old(output[size.value..]) && inner == outer == Spent
      ensures output != null && ok && old(inner).Absorbed? && old(outer).Absorbed? ==>
                output[..size.value] == hash(algorithm.value, old(outer).data + hash(algorithm.value, old(inner).data))
    {
      ok, size := false, None;
      if !wantsSize || algorithm == None { return; }
      var n := OutputSize(algorithm.value);
      size := Some(n);
      if output == null { return true, size; }
      if capacity < n { return; }
      var tag: Bytes := seq(n, _ => 0);
      if inner.Absorbed? && outer.Absorbed? {
        tag := hash(algorithm.value, outer.data + hash(algorithm.value, inner.data));
      } else {
        var unknown: Bytes := *;
        tag := if |unknown| == n then unknown else tag;
      }
      assert |tag| == n;
      forall i | 0 <= i < n { output[i] := tag[i]; }
      assert output[..n] == tag;
      inner, outer := Spent, Spent;
      ok := true;
    }
  }

  lemma {:induction false} XorLaws(x: Byte, y: Byte)
    ensures Xor(x, y) == Xor(y, x) && Xor(0, y) == y
  {}

  lemma {:induction false} FlattenNothing(chunks: seq<Bytes>)
    ensures Flatten(chunks[..0]) == []
  {}

  /** The tag of section 2 of RFC 2104, with the block and output sizes of the
      three digests written out: the inner hash runs over the message behind the
      key block XORed with 0x36, the outer one over the inner digest behind the key
      block XORed with 0x5c, and a key longer than a block is hashed first. */
  lemma {:induction false} RfcTag(hash: Hash, a: Algorithm, key: Bytes, message: Bytes, k: Bytes, ip: Bytes, op: Bytes)
    requires IsHash(hash)
    requires var block := match a case Sha1 => 64 case Sha256 => 64 case Sha512 => 128;
             |k| == |ip| == |op| == block
    requires var start := if |key| > |k| then hash(a, key) else key;
             |start| <= |k| && forall i :: 0 <= i < |k| ==> k[i] == if i < |start| then start[i] else 0
    requires forall i :: 0 <= i < |k| ==> ip[i] == k[i] ^ 0x36 && op[i] == k[i] ^ 0x5c
    ensures Rfc2104(hash, a, key, message) == hash(a, op + hash(a, ip + message))
    ensures |Rfc2104(hash, a, key, message)| == match a case Sha1 => 20 case Sha256 => 32 case Sha512 => 64
  {
    assert k == BlockKey(hash, a, key);
    assert ip == XorAll(k, IPAD) && op == XorAll(k, OPAD);
  }

  /** Any key, any chunks, with size queries in between: the tag is the RFC's. */
  method Authenticate(c: Context, a: Algorithm, name: string, key: Bytes, chunks: seq<Bytes>, output: array<Byte>)
    returns (ok: bool)
    requires IsHash(c.hash)
    requires LowerAll(name) == match a case Sha1 => "sha1" case Sha256 => "sha256" case Sha512 => "sha512"
    modifies c, output
    ensures var size := match a case Sha1 => 20 case Sha256 => 32 case Sha512 => 64;
            && (ok <==> output.Length >= size)
            && (ok ==> output[..size] == Rfc2104(c.hash, a, key, Flatten(chunks)))
  {
    hide Flatten, XorAll, BlockKey, LowerAll;
    FlattenNothing(chunks);
    var parameters := [Parameter("digest", Some(name))];
    ok := c.Init(Some(key), parameters);
    for i := 0 to |chunks|
      invariant c.Fed(a, key, Flatten(chunks[..i]))
    {
      ghost var before := Flatten(chunks[..i]);
      var fed := c.Update(Some(chunks[i]), |chunks[i]|);
      var asked, _ := c.Final(null, 0, true);
      FlattenSnoc(chunks[..i], chunks[i]);
      assert chunks[..i + 1] == chunks[..i] + [chunks[i]];
      assert XorAll(BlockKey(c.hash, a, key), IPAD) + before + chunks[i]
          == XorAll(BlockKey(c.hash, a, key), IPAD) + (before + chunks[i]);
    }
    assert chunks[..|chunks|] == chunks;
    var size;
    ok, size := c.Final(output, output.Length, true);
  }
}
