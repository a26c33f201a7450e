/** Compact JSON text of verification data and of batches: section 5 of RFC 8259 for arrays. */
module Json {
  import opened ByteStrings
  import opened Commitment

  const DECIMAL: string := "0123456789"
  const HEXADECIMAL: string := "0123456789abcdef"

  function ByteText(b: byte): string {
    var n := b as nat;
    if n < 10 then [DECIMAL[n]]
    else if n < 100 then [DECIMAL[n / 10], DECIMAL[n % 10]]
    else [DECIMAL[n / 100], DECIMAL[n / 10 % 10], DECIMAL[n % 10]]
  }

  function HexText(bytes: Bytes): string {
    if bytes == [] then ""
    else [HEXADECIMAL[bytes[0] as nat / 16], HEXADECIMAL[bytes[0] as nat % 16]] + HexText(bytes[1..])
  }

  /** The items separated by commas. */
  function Separated(items: seq<string>): string
    decreases |items|
  {
    if items == [] then "" else if |items| == 1 then items[0] else items[0] + "," + Separated(items[1..])
  }

  function ArrayText(items: seq<string>): string {
    "[" + Separated(items) + "]"
  }

  function BytesText(bytes: Bytes): string {
    ArrayText(seq(|bytes|, i requires 0 <= i < |bytes| => ByteText(bytes[i])))
  }

  function OptionText(bytes: Option<Bytes>): string {
    if bytes.None? then "null" else BytesText(bytes.value)
  }

  function SystemText(id: ProvingSystemId): string {
    match id
    case GnarkPlonkBls12_381 => "GnarkPlonkBls12_381"
    case GnarkPlonkBn254 => "GnarkPlonkBn254"
    case Groth16Bn254 => "Groth16Bn254"
    case SP1 => "SP1"
    case Halo2KZG => "Halo2KZG"
    case Halo2IPA => "Halo2IPA"
  }

  /** `serde_json::to_vec(&verification_data)` */
  function Text(data: VerificationData): string {
    "{\"proving_system\":\"" + SystemText(data.provingSystem) +
    "\",\"proof\":" + BytesText(data.proof) +
    ",\"pub_input\":" + OptionText(data.pubInput) +
    ",\"verification_key\":" + OptionText(data.verificationKey) +
    ",\"vm_program_code\":" + OptionText(data.vmProgramCode) +
    ",\"proof_generator_addr\":\"0x" + HexText(data.generator) + "\"}"
  }

  /** Serialised size of one item. */
  function Size(data: VerificationData): nat {
    |Text(data)|
  }

  /** Digits of the bytes in decimal, all together. */
  function Digits(bytes: Bytes): nat {
    if bytes == [] then 0
    else (if bytes[0] < 10 then 1 else if bytes[0] < 100 then 2 else 3) + Digits(bytes[1..])
  }

  /** Length of an array of bytes: its digits, a comma between neighbours and two brackets. */
  function BytesSize(bytes: Bytes): nat {
    if bytes == [] then 2 else Digits(bytes) + |bytes| + 1
  }

  function OptionSize(bytes: Option<Bytes>): nat {
    if bytes.None? then 4 else BytesSize(bytes.value)
  }

  function NameSize(id: ProvingSystemId): nat {
    match id
    case GnarkPlonkBls12_381 => 19
    case GnarkPlonkBn254 => 15
    case Groth16Bn254 => 12
    case SP1 => 3
    case Halo2KZG => 8
    case Halo2IPA => 8
  }

  /** An item's size in digits: 110 bytes of names and punctuation, 40 of address, the name and the four arrays. */
  lemma SizeIs(data: VerificationData)
    ensures Size(data) == 150 + NameSize(data.provingSystem) + BytesSize(data.proof) + OptionSize(data.pubInput)
                          + OptionSize(data.verificationKey) + OptionSize(data.vmProgramCode)
  {
    hide BytesText, HexText, Digits;
    BytesTextSize(data.proof);
    OptionTextSize(data.pubInput);
    OptionTextSize(data.verificationKey);
    OptionTextSize(data.vmProgramCode);
    HexTextSize(data.generator);
  }

  lemma OptionTextSize(bytes: Option<Bytes>)
    ensures |OptionText(bytes)| == OptionSize(bytes)
  {
    if bytes.Some? {
      BytesTextSize(bytes.value);
    }
  }

  lemma {:induction false} HexTextSize(bytes: Bytes)
    ensures |HexText(bytes)| == 2 * |bytes|
  {
    if bytes != [] {
      HexTextSize(bytes[1..]);
    }
  }

  lemma BytesTextSize(bytes: Bytes)
    ensures |BytesText(bytes)| == BytesSize(bytes)
  {
    SeparatedSize(bytes, seq(|bytes|, i requires 0 <= i < |bytes| => ByteText(bytes[i])));
  }

  lemma {:induction false} SeparatedSize(bytes: Bytes, items: seq<string>)
    requires |items| == |bytes| && forall i :: 0 <= i < |bytes| ==> items[i] == ByteText(bytes[i])
    ensures bytes != [] ==> |Separated(items)| == Digits(bytes) + |bytes| - 1
    decreases |bytes|
  {
    if |bytes| == 1 {
      assert Digits(bytes[1..]) == 0;
    } else if |bytes| > 1 {
      SeparatedSize(bytes[1..], items[1..]);
    }
  }

  function Texts(batch: seq<VerificationData>): (texts: seq<string>)
    ensures |texts| == |batch|
  {
    if batch == [] then [] else [Text(batch[0])] + Texts(batch[1..])
  }

  function SizeSum(batch: seq<VerificationData>): nat {
    if batch == [] then 0 else Size(batch[0]) + SizeSum(batch[1..])
  }

  /** Serialised size of a batch: its items, a comma between neighbours and two brackets. */
  lemma {:induction false} BatchTextSize(batch: seq<VerificationData>)
    ensures |ArrayText(Texts(batch))| == if batch == [] then 2 else SizeSum(batch) + |batch| + 1
  {
    if |batch| == 1 {
      assert Texts(batch[1..]) == [];
      assert SizeSum(batch[1..]) == 0;
    } else if |batch| > 1 {
      BatchTextSize(batch[1..]);
      assert Texts(batch)[1..] == Texts(batch[1..]);
    }
  }
}
