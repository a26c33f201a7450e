/**
 The Halo2-KZG parameter blob: its writer, the batcher's parser and the operator's parser, with the public
 inputs and the proof that travel beside it.
 */
module Halo2Blob {
  import opened ByteStrings
  import opened Commitment
  import opened ParallelVerify

  const MAX_CONSTRAINT_SYSTEM_SIZE: nat := 2048
  const MAX_VERIFIER_KEY_SIZE: nat := 1024
  const MAX_KZG_PARAMS_SIZE: nat := 4096
  const MAX_PUBLIC_INPUT_SIZE: nat := 4096

  /** The Go side declares 8192 bytes for the proof, the Rust side behind it 4096. */
  const GO_MAX_PROOF_SIZE: nat := 8192
  const FFI_MAX_PROOF_SIZE: nat := 4096

  const HEADER: nat := 12

  datatype Sections = Sections(cs: Bytes, vk: Bytes, kzg: Bytes)

  /** The sizes both parsers have room for. */
  predicate FitsBuffers(s: Sections) {
    |s.cs| <= MAX_CONSTRAINT_SYSTEM_SIZE && |s.vk| <= MAX_VERIFIER_KEY_SIZE && |s.kzg| <= MAX_KZG_PARAMS_SIZE
  }

  function Zeros(n: nat): (z: Bytes)
    ensures |z| == n && forall i :: 0 <= i < n ==> z[i] == 0
  {
    seq(n, _ => 0)
  }

  /** A zeroed buffer of `n` bytes after `x` has been copied into it, cut off at its end. */
  function Buffer(x: Bytes, n: nat): (b: Bytes)
    ensures |b| == n
  {
    if |x| <= n then x + Zeros(n - |x|) else x[..n]
  }

  lemma BufferAt(x: Bytes, n: nat, i: nat)
    requires i < n
    ensures Buffer(x, n)[i] == if i < |x| then x[i] else 0
  {
  }

  // ---------- the writer ----------

  function Blob(s: Sections): Bytes {
    LeBytes(|s.cs|) + LeBytes(|s.vk|) + LeBytes(|s.kzg|) + s.cs + s.vk + s.kzg
  }

  method WriteParams(cs: Bytes, vk: Bytes, kzg: Bytes) returns (file: Bytes)
    ensures file == Blob(Sections(cs, vk, kzg))
  {
    file := LeBytes(|cs|);
    file := file + LeBytes(|vk|);
    file := file + LeBytes(|kzg|);
    file := file + cs;
    file := file + vk;
    file := file + kzg;
  }

  /** The `k`-th length in the header. */
  function LenAt(b: Bytes, k: nat): (n: nat)
    requires k < 3 && HEADER <= |b|
    ensures n < TWO_TO_THE_32
  {
    FromLe(b[4 * k..4 * k + 4])
  }

  /** Where the header says the third section starts, and where it ends. */
  function KzgOffset(b: Bytes): nat
    requires HEADER <= |b|
  {
    HEADER + LenAt(b, 0) + LenAt(b, 1)
  }

  function End(b: Bytes): nat
    requires HEADER <= |b|
  {
    KzgOffset(b) + LenAt(b, 2)
  }

  /** Little-endian: the low byte first. */
  lemma LowByteFirst()
    ensures LeBytes(0x04030201) == [1, 2, 3, 4] && FromLe([1, 2, 3, 4]) == 0x04030201
  {
  }

  /** Where everything is in a written file. */
  lemma BlobLayout(s: Sections)
    ensures var b, vkOffset := Blob(s), 12 + |s.cs|;
            && |b| == vkOffset + |s.vk| + |s.kzg|
            && b[0..4] == LeBytes(|s.cs|) && b[4..8] == LeBytes(|s.vk|) && b[8..12] == LeBytes(|s.kzg|)
            && b[12..vkOffset] == s.cs && b[vkOffset..vkOffset + |s.vk|] == s.vk && b[vkOffset + |s.vk|..] == s.kzg
  {
    hide LeBytes;
  }

  lemma HeaderOfBlob(s: Sections)
    ensures |Blob(s)| == HEADER + |s.cs| + |s.vk| + |s.kzg|
    ensures LenAt(Blob(s), 0) == |s.cs| % TWO_TO_THE_32
    ensures LenAt(Blob(s), 1) == |s.vk| % TWO_TO_THE_32
    ensures LenAt(Blob(s), 2) == |s.kzg| % TWO_TO_THE_32
  {
    hide FromLe, LeBytes;
    var a, b, c, rest := LeBytes(|s.cs|), LeBytes(|s.vk|), LeBytes(|s.kzg|), s.cs + s.vk + s.kzg;
    assert Blob(s) == a + b + c + rest;
    assert Blob(s)[0..4] == a && Blob(s)[4..8] == b && Blob(s)[8..12] == c;
    FromLeOfLeBytes(|s.cs|);
    FromLeOfLeBytes(|s.vk|);
    FromLeOfLeBytes(|s.kzg|);
  }

  // ---------- the batcher's parser ----------

  /** The sections as the batcher slices them; `None` is a panic. */
  function BatcherSections(b: Bytes): Option<Sections> {
    if |b| < HEADER then None
    else if LenAt(b, 0) > MAX_CONSTRAINT_SYSTEM_SIZE || HEADER + LenAt(b, 0) > |b| then None
    else if LenAt(b, 1) > MAX_VERIFIER_KEY_SIZE || KzgOffset(b) > |b| then None
    else if LenAt(b, 2) > MAX_KZG_PARAMS_SIZE || |b| - KzgOffset(b) != LenAt(b, 2) then None
    else Some(Sections(b[HEADER..HEADER + LenAt(b, 0)], b[HEADER + LenAt(b, 0)..KzgOffset(b)], b[KzgOffset(b)..]))
  }

  /** `buffer[..len].clone_from_slice(src)`; false is a panic. */
  method CloneFromSlice(buffer: array<byte>, len: nat, src: Bytes) returns (ok: bool)
    requires forall i :: 0 <= i < buffer.Length ==> buffer[i] == 0
    modifies buffer
    ensures ok <==> len <= buffer.Length && |src| == len
    ensures ok ==> buffer[..] == Buffer(src, buffer.Length)
  {
    ok := len <= buffer.Length && |src| == len;
    if ok {
      forall i | 0 <= i < |src| {
        buffer[i] := src[i];
      }
    }
  }

  /** The slicing of `verify_halo2_kzg`: three zeroed buffers, filled section by section. */
  method FillBuffers(b: Bytes) returns (r: Option<Sections>)
    ensures r.Some? <==> BatcherSections(b).Some?
    ensures r.Some? ==>
              var s := BatcherSections(b).value;
              r.value == Sections(Buffer(s.cs, MAX_CONSTRAINT_SYSTEM_SIZE), Buffer(s.vk, MAX_VERIFIER_KEY_SIZE),
                                  Buffer(s.kzg, MAX_KZG_PARAMS_SIZE))
  {
    hide FromLe, Buffer;
    r := None;
    if |b| < HEADER {
      return;
    }
    var csBuffer := new byte[MAX_CONSTRAINT_SYSTEM_SIZE](_ => 0);
    var csLen := LenAt(b, 0);
    if HEADER + csLen > |b| {
      return;
    }
    var ok := CloneFromSlice(csBuffer, csLen, b[HEADER..HEADER + csLen]);
    if !ok {
      return;
    }
    var vkBuffer := new byte[MAX_VERIFIER_KEY_SIZE](_ => 0);
    var vkLen, vkOffset := LenAt(b, 1), HEADER + csLen;
    if vkOffset + vkLen > |b| {
      return;
    }
    ok := CloneFromSlice(vkBuffer, vkLen, b[vkOffset..vkOffset + vkLen]);
    if !ok {
      return;
    }
    var kzgBuffer := new byte[MAX_KZG_PARAMS_SIZE](_ => 0);
    var kzgLen, kzgOffset := LenAt(b, 2), vkOffset + vkLen;
    ok := CloneFromSlice(kzgBuffer, kzgLen, b[kzgOffset..]);
    if ok {
      r := Some(Sections(csBuffer[..], vkBuffer[..], kzgBuffer[..]));
    }
  }

  // ---------- the operator's parser ----------

  /** A Go slice: its bytes and those between its length and its capacity. */
  datatype GoSlice = GoSlice(data: Bytes, spare: Bytes)

  /** What the backing array holds from the slice's start; an upper bound is checked against it. */
  function Backing(p: GoSlice): Bytes {
    p.data + p.spare
  }

  function Wrap32(n: nat): nat {
    n % TWO_TO_THE_32
  }

  datatype Parsed = Parsed(csLen: nat, vkLen: nat, kzgLen: nat, cs: Bytes, vk: Bytes, rest: Bytes)

  /** The slices of the Halo2-KZG branch of `verify`, with 32-bit offsets; `None` is a panic. */
  function OperatorParse(p: GoSlice): Option<Parsed> {
    var m := Backing(p);
    if |m| < HEADER then None
    else
      var vkOffset := Wrap32(HEADER + LenAt(m, 0));
      if !(HEADER <= vkOffset <= |m|) then None
      else
        var kzgOffset := Wrap32(vkOffset + LenAt(m, 1));
        if !(vkOffset <= kzgOffset <= |m|) || kzgOffset > |p.data| then None
        else Some(Parsed(LenAt(m, 0), LenAt(m, 1), LenAt(m, 2),
                         m[HEADER..vkOffset], m[vkOffset..kzgOffset], p.data[kzgOffset..]))
  }

  /** What the header at the front of `b` cuts out of it. */
  function Cuts(b: Bytes): Parsed
    requires |b| >= HEADER && KzgOffset(b) <= |b|
  {
    Parsed(LenAt(b, 0), LenAt(b, 1), LenAt(b, 2),
           b[HEADER..HEADER + LenAt(b, 0)], b[HEADER + LenAt(b, 0)..KzgOffset(b)], b[KzgOffset(b)..])
  }

  /**
   The operator gets past its slicing exactly when the header is there, the first two sections end inside the
   blob and their end does not wrap; then nothing wrapped and it has the header's cuts. Bytes beyond the
   slice's length play no part, although bounds are checked against them.
   */
  lemma OperatorParsesIff(p: GoSlice)
    ensures OperatorParse(p).Some? <==>
            |p.data| >= HEADER && KzgOffset(p.data) <= |p.data| && KzgOffset(p.data) < TWO_TO_THE_32
    ensures OperatorParse(p).Some? ==> OperatorParse(p).value == Cuts(p.data)
  {
    hide LenAt;
    if |p.data| >= HEADER {
      SameHeader(p);
      WrappedCuts(|p.data|, |Backing(p)|, LenAt(p.data, 0), LenAt(p.data, 1));
      if OperatorParse(p).Some? {
        SameSections(p, HEADER, HEADER + LenAt(p.data, 0));
        SameSections(p, HEADER + LenAt(p.data, 0), KzgOffset(p.data));
      }
    } else if |Backing(p)| >= HEADER {
      WrappedCuts(|p.data|, |Backing(p)|, LenAt(Backing(p), 0), LenAt(Backing(p), 1));
    }
  }

  /** With 32-bit offsets the bounds hold only where no offset wraps: a wrapped one lies below its lower bound. */
  lemma WrappedCuts(size: nat, capacity: nat, csLen: nat, vkLen: nat)
    requires size <= capacity && csLen < TWO_TO_THE_32 && vkLen < TWO_TO_THE_32
    ensures var vkOffset := Wrap32(HEADER + csLen);
            var kzgOffset := Wrap32(vkOffset + vkLen);
            (HEADER <= vkOffset <= capacity && vkOffset <= kzgOffset <= capacity && kzgOffset <= size)
            <==> (HEADER + csLen + vkLen <= size && HEADER + csLen + vkLen < TWO_TO_THE_32)
    ensures HEADER + csLen + vkLen < TWO_TO_THE_32 ==>
              Wrap32(HEADER + csLen) == HEADER + csLen
              && Wrap32(HEADER + csLen + vkLen) == HEADER + csLen + vkLen
  {
    assert HEADER + csLen >= TWO_TO_THE_32 ==> Wrap32(HEADER + csLen) == HEADER + csLen - TWO_TO_THE_32;
    var vkOffset := Wrap32(HEADER + csLen);
    assert vkOffset + vkLen >= TWO_TO_THE_32 ==> Wrap32(vkOffset + vkLen) == vkOffset + vkLen - TWO_TO_THE_32;
  }

  lemma SameHeader(p: GoSlice)
    requires |p.data| >= HEADER
    ensures LenAt(Backing(p), 0) == LenAt(p.data, 0)
    ensures LenAt(Backing(p), 1) == LenAt(p.data, 1)
    ensures LenAt(Backing(p), 2) == LenAt(p.data, 2)
  {
    hide FromLe;
    SameSections(p, 0, 4);
    SameSections(p, 4, 8);
    SameSections(p, 8, 12);
  }

  lemma SameSections(p: GoSlice, lo: nat, hi: nat)
    requires lo <= hi <= |p.data|
    ensures Backing(p)[lo..hi] == p.data[lo..hi]
  {
  }

  // ---------- the two parsers and the writer ----------

  /** The lengths in the header fit the buffers. */
  predicate HeaderFits(b: Bytes)
    requires |b| >= HEADER
  {
    && LenAt(b, 0) <= MAX_CONSTRAINT_SYSTEM_SIZE && LenAt(b, 1) <= MAX_VERIFIER_KEY_SIZE
    && LenAt(b, 2) <= MAX_KZG_PARAMS_SIZE
  }

  /** The batcher accepts exactly the blobs that their header describes to the byte and that fit. */
  lemma BatcherParsesIff(b: Bytes)
    ensures BatcherSections(b).Some? <==> |b| >= HEADER && HeaderFits(b) && |b| == End(b)
    ensures BatcherSections(b).Some? ==>
              FitsBuffers(BatcherSections(b).value)
              && BatcherSections(b).value == Sections(Cuts(b).cs, Cuts(b).vk, Cuts(b).rest)
  {
  }

  /**
   Every blob the batcher parses the operator parses too, into the same three byte strings and their lengths,
   whatever lies behind it in memory. The operator parses more: the third length is not held against the rest.
   */
  lemma ParsersAgree(b: Bytes, spare: Bytes)
    ensures BatcherSections(b).Some? ==>
              var s := BatcherSections(b).value;
              OperatorParse(GoSlice(b, spare)) == Some(Parsed(|s.cs|, |s.vk|, |s.kzg|, s.cs, s.vk, s.kzg))
    ensures OperatorParse(GoSlice(b, spare)).Some? ==>
              var q := OperatorParse(GoSlice(b, spare)).value;
              BatcherSections(b).Some? <==> HeaderFits(b) && |q.rest| == q.kzgLen
  {
    hide LenAt, OperatorParse, BatcherSections;
    BatcherParsesIff(b);
    OperatorParsesIff(GoSlice(b, spare));
  }

  lemma CutsOfBlob(s: Sections)
    requires |s.cs| < TWO_TO_THE_32 && |s.vk| < TWO_TO_THE_32 && |s.kzg| < TWO_TO_THE_32
    ensures |Blob(s)| >= HEADER && End(Blob(s)) == |Blob(s)|
    ensures Cuts(Blob(s)) == Parsed(|s.cs|, |s.vk|, |s.kzg|, s.cs, s.vk, s.kzg)
  {
    HeaderOfBlob(s);
    hide LenAt, LeBytes;
  }

  /** Both parsers read back exactly what was written, when it fits; the batcher refuses everything else. */
  lemma WrittenBlobIsRead(s: Sections, spare: Bytes)
    ensures BatcherSections(Blob(s)) == if FitsBuffers(s) then Some(s) else None
    ensures FitsBuffers(s) ==>
              OperatorParse(GoSlice(Blob(s), spare)) == Some(Parsed(|s.cs|, |s.vk|, |s.kzg|, s.cs, s.vk, s.kzg))
  {
    hide LenAt, LeBytes, OperatorParse, BatcherSections, Blob;
    HeaderOfBlob(s);
    BatcherParsesIff(Blob(s));
    if BatcherSections(Blob(s)).Some? || FitsBuffers(s) {
      CutsOfBlob(s);
    }
    ParsersAgree(Blob(s), spare);
  }

  // ---------- the operator's buffers ----------

  /** Go's `copy`: as many bytes as both sides have. */
  method Copy(buffer: array<byte>, src: Bytes)
    requires forall i :: 0 <= i < buffer.Length ==> buffer[i] == 0
    modifies buffer
    ensures buffer[..] == Buffer(src, buffer.Length)
  {
    var n := if |src| <= buffer.Length then |src| else buffer.Length;
    forall i | 0 <= i < n {
      buffer[i] := src[i];
    }
  }

  /** The five arrays and lengths that `verify` passes across the foreign call. */
  datatype Passed = Passed(
    proof: Bytes, proofLen: nat,
    cs: Bytes, csLen: nat,
    vk: Bytes, vkLen: nat,
    kzg: Bytes, kzgLen: nat,
    pubInput: Bytes, pubInputLen: nat)

  function PassedOf(proof: Bytes, pubInput: Bytes, q: Parsed): Passed {
    Passed(Buffer(proof, GO_MAX_PROOF_SIZE), Wrap32(|proof|),
           Buffer(q.cs, MAX_CONSTRAINT_SYSTEM_SIZE), q.csLen,
           Buffer(q.vk, MAX_VERIFIER_KEY_SIZE), q.vkLen,
           Buffer(q.rest, MAX_KZG_PARAMS_SIZE), q.kzgLen,
           Buffer(pubInput, MAX_PUBLIC_INPUT_SIZE), Wrap32(|pubInput|))
  }

  /** The Halo2-KZG branch of `verify` up to the foreign call. */
  method PrepareCall(proof: Bytes, pubInput: Bytes, params: GoSlice) returns (r: Option<Passed>)
    ensures r.Some? <==> OperatorParse(params).Some?
    ensures r.Some? ==> r.value == PassedOf(proof, pubInput, OperatorParse(params).value)
    ensures r.Some? ==>
              |params.data| >= HEADER && KzgOffset(params.data) <= |params.data| &&
              var q, full := Cuts(params.data), TWO_TO_THE_32;
              r.value == Passed(Buffer(proof, 8192), |proof| % full, Buffer(q.cs, 2048), q.csLen,
                                Buffer(q.vk, 1024), q.vkLen, Buffer(q.rest, 4096), q.kzgLen,
                                Buffer(pubInput, 4096), |pubInput| % full)
  {
    OperatorParsesIff(params);
    hide LenAt, Buffer;
    r := None;
    var m := Backing(params);
    var proofBytes := new byte[GO_MAX_PROOF_SIZE](_ => 0);
    Copy(proofBytes, proof);
    if |m| < HEADER {
      return;
    }
    var csLen, vkLen, kzgLen := LenAt(m, 0), LenAt(m, 1), LenAt(m, 2);
    var csBytes := new byte[MAX_CONSTRAINT_SYSTEM_SIZE](_ => 0);
    var vkOffset := Wrap32(HEADER + csLen);
    if !(HEADER <= vkOffset <= |m|) {
      return;
    }
    Copy(csBytes, m[HEADER..vkOffset]);
    var vkBytes := new byte[MAX_VERIFIER_KEY_SIZE](_ => 0);
    var kzgOffset := Wrap32(vkOffset + vkLen);
    if !(vkOffset <= kzgOffset <= |m|) {
      return;
    }
    Copy(vkBytes, m[vkOffset..kzgOffset]);
    var kzgBytes := new byte[MAX_KZG_PARAMS_SIZE](_ => 0);
    if kzgOffset > |params.data| {
      return;
    }
    Copy(kzgBytes, params.data[kzgOffset..]);
    var pubInputBytes := new byte[MAX_PUBLIC_INPUT_SIZE](_ => 0);
    Copy(pubInputBytes, pubInput);
    r := Some(Passed(proofBytes[..], Wrap32(|proof|), csBytes[..], csLen, vkBytes[..], vkLen, kzgBytes[..], kzgLen,
                     pubInputBytes[..], Wrap32(|pubInput|)));
  }

  // ---------- public inputs ----------

  /** The field's encoding: `toRepr` and `fromBytes` of the curve library, mutually inverse where both are defined. */
  datatype Field<!F(!new)> = Field(toRepr: F -> Digest, fromBytes: Digest -> Option<F>) {
    ghost predicate Valid() {
      && (forall x :: fromBytes(toRepr(x)) == Some(x))
      && (forall d :: fromBytes(d).Some? ==> toRepr(fromBytes(d).value) == d)
    }
  }

  /** Encodings one after the other. */
  function Reprs<F(!new)>(field: Field<F>, instances: seq<F>): (b: Bytes)
    ensures |b| == 32 * |instances|
  {
    if instances == [] then [] else field.toRepr(instances[0]) + Reprs(field, instances[1..])
  }

  /** The loop that writes the public-input file. */
  method WriteInstances<F(!new)>(field: Field<F>, instances: seq<F>) returns (file: Bytes)
    ensures file == Reprs(field, instances)
  {
    file := [];
    var i := 0;
    while i < |instances|
      invariant i <= |instances| && file + Reprs(field, instances[i..]) == Reprs(field, instances)
    {
      assert instances[i..][1..] == instances[i + 1..];
      AppendTwo(file, field.toRepr(instances[i]), Reprs(field, instances[i + 1..]));
      file := file + field.toRepr(instances[i]);
      i := i + 1;
    }
    assert Reprs(field, instances[i..]) == [];
  }

  lemma AppendTwo<T>(a: seq<T>, b: seq<T>, c: seq<T>)
    ensures a + (b + c) == a + b + c
  {
  }

  /** `xs` before the elements of `r`, if there are any. */
  function Before<F>(xs: seq<F>, r: Option<seq<F>>): Option<seq<F>> {
    if r.None? then None else Some(xs + r.value)
  }

  /** The elements read from `b` by 32 bytes each, a shorter rest dropped; `None` is a panic. */
  function Instances<F(!new)>(field: Field<F>, b: Bytes): (r: Option<seq<F>>)
    ensures r.Some? ==> |r.value| == |b| / 32
  {
    if |b| < 32 then Some([])
    else if field.fromBytes(b[..32]).None? then None
    else Before([field.fromBytes(b[..32]).value], Instances(field, b[32..]))
  }

  lemma BeforeTwice<F>(xs: seq<F>, ys: seq<F>, r: Option<seq<F>>)
    ensures Before(xs, Before(ys, r)) == Before(xs + ys, r)
    ensures Before([], r) == r
  {
    if r.Some? {
      AppendTwo(xs, ys, r.value);
      assert [] + r.value == r.value;
    }
  }

  /** `read_fr`, as both sides have it. */
  method ReadFr<F(!new)>(field: Field<F>, b: Bytes) returns (r: Option<seq<F>>)
    ensures r == Instances(field, b)
  {
    var instances: seq<F>, rest := [], b;
    BeforeTwice<F>([], [], Instances(field, b));
    while |rest| >= 32
      invariant Before(instances, Instances(field, rest)) == Instances(field, b)
    {
      var x := field.fromBytes(rest[..32]);
      if x.None? {
        return None;
      }
      BeforeTwice(instances, [x.value], Instances(field, rest[32..]));
      instances := instances + [x.value];
      rest := rest[32..];
    }
    assert instances + [] == instances;
    return Some(instances);
  }

  /** What `main` writes, `read_fr` reads back; up to 31 bytes behind it change nothing. */
  lemma {:induction false} InstancesOfReprs<F(!new)>(field: Field<F>, instances: seq<F>, tail: Bytes)
    requires field.Valid() && |tail| < 32
    ensures Instances(field, Reprs(field, instances) + tail) == Some(instances)
  {
    var b := Reprs(field, instances) + tail;
    if instances == [] {
      assert b == tail;
    } else {
      InstancesOfReprs(field, instances[1..], tail);
      assert b[..32] == field.toRepr(instances[0]);
      assert b[32..] == Reprs(field, instances[1..]) + tail;
      assert [instances[0]] + instances[1..] == instances;
    }
  }

  /** Conversely nothing else reads as these elements: the bytes read are their encodings, up to a short rest. */
  lemma {:induction false} ReprsOfInstances<F(!new)>(field: Field<F>, b: Bytes)
    requires field.Valid() && Instances(field, b).Some?
    ensures b[..32 * (|b| / 32)] == Reprs(field, Instances(field, b).value)
    decreases |b|
  {
    if |b| >= 32 {
      ReprsOfInstances(field, b[32..]);
      var xs := Instances(field, b).value;
      assert xs[1..] == Instances(field, b[32..]).value;
      assert b[..32 * (|b| / 32)] == b[..32] + b[32..][..32 * (|b[32..]| / 32)];
    }
  }

  // ---------- verdicts ----------

  /** The library calls both sides make, on the byte strings handed to them. */
  datatype Library<!F(!new)> = Library(
    field: Field<F>,
    readsCs: Bytes -> bool,
    readsVk: (Bytes, Bytes) -> bool,
    readsParams: Bytes -> bool,
    proves: (Bytes, Bytes, Bytes, seq<F>, Bytes) -> bool)

  /** The nested checks of both `verify` functions. A slice that is `None` panics when it is reached; `down` is how. */
  function Check<F(!new)>(lib: Library<F>, cs: Option<Bytes>, vk: Option<Bytes>, kzg: Option<Bytes>,
                          pubInput: Option<Bytes>, proof: Option<Bytes>, down: Verdict): Verdict {
    if cs.None? then down
    else if !lib.readsCs(cs.value) then Rejects
    else if vk.None? then down
    else if !lib.readsVk(cs.value, vk.value) then Rejects
    else if kzg.None? then down
    else if !lib.readsParams(kzg.value) then Rejects
    else if pubInput.None? || Instances(lib.field, pubInput.value).None? then down
    else if proof.None? then down
    else
      var xs := Instances(lib.field, pubInput.value).value;
      if lib.proves(cs.value, vk.value, kzg.value, xs, proof.value) then Accepts else Rejects
  }

  /** The batcher reads its zero-padded buffers from end to end. */
  function BatcherVerdict<F(!new)>(lib: Library<F>, proof: Bytes, pubInput: Bytes, blob: Bytes): Verdict {
    match BatcherSections(blob)
    case None => Panics
    case Some(s) =>
      Check(lib, Some(Buffer(s.cs, MAX_CONSTRAINT_SYSTEM_SIZE)), Some(Buffer(s.vk, MAX_VERIFIER_KEY_SIZE)),
            Some(Buffer(s.kzg, MAX_KZG_PARAMS_SIZE)), Some(pubInput), Some(proof), Panics)
  }

  function Front(buffer: Bytes, len: nat): Option<Bytes> {
    if len <= |buffer| then Some(buffer[..len]) else None
  }

  /**
   `verify_halo2_kzg_proof_ffi`: the front of every array, of which the proof's is seen as half as long. A panic
   here must not cross the foreign call: it aborts the process.
   */
  function FfiVerdict<F(!new)>(lib: Library<F>, p: Passed): Verdict
    requires |p.proof| >= FFI_MAX_PROOF_SIZE
  {
    Check(lib, Front(p.cs, p.csLen), Front(p.vk, p.vkLen), Front(p.kzg, p.kzgLen), Front(p.pubInput, p.pubInputLen),
          Front(p.proof[..FFI_MAX_PROOF_SIZE], p.proofLen), Aborts)
  }

  /** The operator's own slicing panics on the Go side. */
  function OperatorVerdict<F(!new)>(lib: Library<F>, proof: Bytes, pubInput: Bytes, params: GoSlice): Verdict {
    match OperatorParse(params)
    case None => Panics
    case Some(q) => FfiVerdict(lib, PassedOf(proof, pubInput, q))
  }

  /** The library opens the three sections, so the public input and the proof are looked at. */
  predicate Opens<F(!new)>(lib: Library<F>, s: Sections) {
    lib.readsCs(s.cs) && lib.readsVk(s.cs, s.vk) && lib.readsParams(s.kzg)
  }

  /** The library reads these sections alike with and without zeros behind them. */
  ghost predicate IgnoresPadding<F(!new)>(lib: Library<F>, s: Sections) {
    var cs, vk, kzg := Buffer(s.cs, MAX_CONSTRAINT_SYSTEM_SIZE), Buffer(s.vk, MAX_VERIFIER_KEY_SIZE),
                       Buffer(s.kzg, MAX_KZG_PARAMS_SIZE);
    && lib.readsCs(cs) == lib.readsCs(s.cs)
    && lib.readsVk(cs, vk) == lib.readsVk(s.cs, s.vk)
    && lib.readsParams(kzg) == lib.readsParams(s.kzg)
    && forall xs, proof :: lib.proves(cs, vk, kzg, xs, proof) == lib.proves(s.cs, s.vk, s.kzg, xs, proof)
  }

  /** A copied section that fits comes back from the front of its buffer. */
  lemma FrontOfBuffer(x: Bytes, n: nat)
    ensures Front(Buffer(x, n), |x|) == if |x| <= n then Some(x) else None
  {
  }

  /** A proof shorter than 2^32 bytes survives the copy into 8192 and the view of 4096 exactly if it fits the view. */
  lemma ProofThroughCall(proof: Bytes)
    requires |proof| < TWO_TO_THE_32
    ensures Front(Buffer(proof, GO_MAX_PROOF_SIZE)[..FFI_MAX_PROOF_SIZE], Wrap32(|proof|)) ==
            if |proof| <= FFI_MAX_PROOF_SIZE then Some(proof) else None
  {
    var view := Buffer(proof, GO_MAX_PROOF_SIZE)[..FFI_MAX_PROOF_SIZE];
    if |proof| <= FFI_MAX_PROOF_SIZE {
      assert view[..|proof|] == proof;
    }
  }

  /**
   The operator's verdict on a blob the batcher parses is the library's on the written sections themselves, cut
   short where a public input or a proof is too long for the foreign call's arrays.
   */
  lemma OperatorVerdictIs<F(!new)>(lib: Library<F>, proof: Bytes, pubInput: Bytes, blob: Bytes, spare: Bytes)
    requires BatcherSections(blob).Some? && |proof| < TWO_TO_THE_32 && |pubInput| < TWO_TO_THE_32
    ensures var s := BatcherSections(blob).value;
            OperatorVerdict(lib, proof, pubInput, GoSlice(blob, spare)) ==
            Check(lib, Some(s.cs), Some(s.vk), Some(s.kzg),
                  if |pubInput| <= MAX_PUBLIC_INPUT_SIZE then Some(pubInput) else None,
                  if |proof| <= FFI_MAX_PROOF_SIZE then Some(proof) else None, Aborts)
  {
    hide BatcherSections, OperatorParse, Buffer, Front, Check;
    ParsersAgree(blob, spare);
    BatcherParsesIff(blob);
    var s := BatcherSections(blob).value;
    FrontOfBuffer(s.cs, MAX_CONSTRAINT_SYSTEM_SIZE);
    FrontOfBuffer(s.vk, MAX_VERIFIER_KEY_SIZE);
    FrontOfBuffer(s.kzg, MAX_KZG_PARAMS_SIZE);
    FrontOfBuffer(pubInput, MAX_PUBLIC_INPUT_SIZE);
    ProofThroughCall(proof);
  }

  /**
   What the batcher's verdict is: what the library says of the padded buffers, the instances read and the proof.
   It accepts only what the library proves, and panics only on a public input that is not canonical.
   */
  lemma BatcherVerdictIff<F(!new)>(lib: Library<F>, proof: Bytes, pubInput: Bytes, blob: Bytes)
    requires BatcherSections(blob).Some?
    ensures var s := BatcherSections(blob).value;
            var cs, vk, kzg := Buffer(s.cs, 2048), Buffer(s.vk, 1024), Buffer(s.kzg, 4096);
            var opens := lib.readsCs(cs) && lib.readsVk(cs, vk) && lib.readsParams(kzg);
            var instances := Instances(lib.field, pubInput);
            var proved := instances.Some? && lib.proves(cs, vk, kzg, instances.value, proof);
            var verdict := BatcherVerdict(lib, proof, pubInput, blob);
            && (verdict == Accepts <==> opens && proved)
            && (verdict == Rejects <==> !opens || (instances.Some? && !proved))
            && (verdict == Panics <==> opens && instances.None?)
  {
    hide BatcherSections, Buffer, Instances;
  }

  /**
   What the operator's verdict is on a blob the batcher parses: what the library says of the sections themselves,
   unless a public input or a proof over 4096 bytes is reached first.
   */
  lemma OperatorVerdictIff<F(!new)>(lib: Library<F>, proof: Bytes, pubInput: Bytes, blob: Bytes, spare: Bytes)
    requires BatcherSections(blob).Some? && |proof| < TWO_TO_THE_32 && |pubInput| < TWO_TO_THE_32
    ensures var s := BatcherSections(blob).value;
            var opens := lib.readsCs(s.cs) && lib.readsVk(s.cs, s.vk) && lib.readsParams(s.kzg);
            var instances := Instances(lib.field, pubInput);
            var proved := instances.Some? && lib.proves(s.cs, s.vk, s.kzg, instances.value, proof);
            var gets := |pubInput| <= 4096 && instances.Some? && |proof| <= 4096;
            var verdict := OperatorVerdict(lib, proof, pubInput, GoSlice(blob, spare));
            && (verdict == Accepts <==> opens && gets && proved)
            && (verdict == Rejects <==> !opens || (gets && !proved))
            && (verdict == Aborts <==> opens && !gets)
  {
    OperatorVerdictIs(lib, proof, pubInput, blob, spare);
    hide BatcherSections, OperatorVerdict, Instances;
  }

  /** A blob that is not parsed is a panic on the Go side, and in the batcher. */
  lemma UnparsedPanics<F(!new)>(lib: Library<F>, proof: Bytes, pubInput: Bytes, params: GoSlice)
    ensures BatcherVerdict(lib, proof, pubInput, params.data) == Panics <== BatcherSections(params.data).None?
    ensures OperatorVerdict(lib, proof, pubInput, params) == Panics <==> OperatorParse(params).None?
  {
    hide BatcherSections, OperatorParse, Instances, Front;
  }

  /** What the foreign call accepts, whatever it is passed: only what the library proves of the fronts of its arrays. */
  lemma FfiAcceptsIff<F(!new)>(lib: Library<F>, p: Passed)
    requires |p.proof| >= FFI_MAX_PROOF_SIZE
    ensures FfiVerdict(lib, p) != Panics
    ensures FfiVerdict(lib, p) == Accepts <==>
            && p.csLen <= |p.cs| && p.vkLen <= |p.vk| && p.kzgLen <= |p.kzg| && p.pubInputLen <= |p.pubInput|
            && p.proofLen <= 4096
            && lib.readsCs(p.cs[..p.csLen]) && lib.readsVk(p.cs[..p.csLen], p.vk[..p.vkLen])
            && lib.readsParams(p.kzg[..p.kzgLen]) && Instances(lib.field, p.pubInput[..p.pubInputLen]).Some?
            && lib.proves(p.cs[..p.csLen], p.vk[..p.vkLen], p.kzg[..p.kzgLen],
                          Instances(lib.field, p.pubInput[..p.pubInputLen]).value, p.proof[..p.proofLen])
  {
    hide Instances;
    assert p.proofLen <= 4096 ==> p.proof[..FFI_MAX_PROOF_SIZE][..p.proofLen] == p.proof[..p.proofLen];
  }

  /** The same verdict, a panic on one side being one on the other. */
  predicate Agree(batcher: Verdict, operator: Verdict) {
    if batcher.Panics? then operator.Aborts? else operator == batcher
  }

  /**
   On a blob the batcher parses the two sides agree exactly when a section is not read, the public input is not
   canonical, or proof and public input fit the foreign call's arrays. In every other case the operator aborts
   on an item the batcher accepts or rejects.
   */
  lemma VerdictsAgreeIff<F(!new)>(lib: Library<F>, proof: Bytes, pubInput: Bytes, blob: Bytes, spare: Bytes)
    requires BatcherSections(blob).Some? && IgnoresPadding(lib, BatcherSections(blob).value)
    requires |proof| < TWO_TO_THE_32 && |pubInput| < TWO_TO_THE_32
    ensures var batcher := BatcherVerdict(lib, proof, pubInput, blob);
            var operator := OperatorVerdict(lib, proof, pubInput, GoSlice(blob, spare));
            && (Agree(batcher, operator) <==>
                || !Opens(lib, BatcherSections(blob).value) || Instances(lib.field, pubInput).None?
                || (|proof| <= FFI_MAX_PROOF_SIZE && |pubInput| <= MAX_PUBLIC_INPUT_SIZE))
            && (!Agree(batcher, operator) ==> operator.Aborts? && (batcher.Accepts? || batcher.Rejects?))
  {
    hide BatcherSections, OperatorVerdict, Buffer, Instances;
    OperatorVerdictIs(lib, proof, pubInput, blob, spare);
  }

  /** The elements are their own encodings. */
  function PlainField(): (field: Field<Digest>)
    ensures field.Valid()
  {
    Field((x: Digest) => x, (d: Digest) => Some(d))
  }

  /** A library that opens every section and accepts every proof. */
  function OpenLibrary(): Library<Digest> {
    Library(PlainField(), (cs: Bytes) => true, (cs: Bytes, vk: Bytes) => true, (kzg: Bytes) => true,
            (cs: Bytes, vk: Bytes, kzg: Bytes, xs: seq<Digest>, proof: Bytes) => true)
  }

  /** The disagreement happens: with a proof one byte too long, on any blob that fits and whatever the public input. */
  lemma ProofTooLong(s: Sections, pubInput: Bytes, spare: Bytes)
    requires FitsBuffers(s) && |pubInput| <= MAX_PUBLIC_INPUT_SIZE
    ensures var lib, proof := OpenLibrary(), Zeros(FFI_MAX_PROOF_SIZE + 1);
            && IgnoresPadding(lib, s) && Opens(lib, s)
            && BatcherVerdict(lib, proof, pubInput, Blob(s)) == Accepts
            && OperatorVerdict(lib, proof, pubInput, GoSlice(Blob(s), spare)) == Aborts
  {
    hide Blob, BatcherSections, OperatorVerdict, Buffer, Instances;
    var lib, proof := OpenLibrary(), Zeros(FFI_MAX_PROOF_SIZE + 1);
    WrittenBlobIsRead(s, spare);
    PlainFieldReads(pubInput);
    VerdictsAgreeIff(lib, proof, pubInput, Blob(s), spare);
  }

  lemma {:induction false} PlainFieldReads(b: Bytes)
    ensures Instances(PlainField(), b).Some?
    decreases |b|
  {
    if |b| >= 32 {
      PlainFieldReads(b[32..]);
    }
  }

  /** A library that insists on a constraint system as long as the batcher's buffer. */
  function PickyLibrary(): Library<Digest> {
    OpenLibrary().(readsCs := (cs: Bytes) => |cs| == MAX_CONSTRAINT_SYSTEM_SIZE)
  }

  /** Why padding has to be ignored: the batcher pads what the operator does not, and a library can tell. */
  lemma PaddingMatters(s: Sections, spare: Bytes)
    requires FitsBuffers(s) && |s.cs| < MAX_CONSTRAINT_SYSTEM_SIZE
    ensures var lib := PickyLibrary();
            && !IgnoresPadding(lib, s)
            && BatcherVerdict(lib, [], [], Blob(s)) == Accepts
            && OperatorVerdict(lib, [], [], GoSlice(Blob(s), spare)) == Rejects
  {
    hide Blob, BatcherSections, OperatorVerdict, Buffer;
    WrittenBlobIsRead(s, spare);
    OperatorVerdictIs(PickyLibrary(), [], [], Blob(s), spare);
  }
}
