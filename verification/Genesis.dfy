/** The genesis storage encoder (hayabusa/genesis.go, hayabusa/config.go) and the
    decoder that reads a configuration back (cmd/txsimulation/devnet.go). */
module Genesis {
  import opened Common

  type Byte = n: nat | n < 256
  type Text = seq<char>
  type Bytes = seq<Byte>

  // ---------- hexadecimal ----------

  function HexDigit(n: nat): char
    requires n < 16
  {
    "0123456789abcdef"[n]
  }

  /** Both cases, as hex.DecodeString and strconv.ParseUint accept. */
  function HexValue(c: char): Option<nat> {
    if '0' <= c <= '9' then Some(c as nat - '0' as nat)
    else if 'a' <= c <= 'f' then Some(c as nat - 'a' as nat + 10)
    else if 'A' <= c <= 'F' then Some(c as nat - 'A' as nat + 10)
    else None
  }

  lemma HexDigitValue(n: nat)
    requires n < 16
    ensures HexValue(HexDigit(n)) == Some(n)
  {
  }

  function HexEncode(b: Bytes): Text {
    if b == [] then [] else [HexDigit(b[0] / 16), HexDigit(b[0] % 16)] + HexEncode(b[1..])
  }

  function HexDecode(t: Text): Option<Bytes> {
    if t == [] then Some([])
    else if |t| == 1 then None
    else
      match (HexValue(t[0]), HexValue(t[1]), HexDecode(t[2..]))
      case (Some(high), Some(low), Some(rest)) => if high < 16 && low < 16 then Some([high * 16 + low] + rest) else None
      case _ => None
  }

  lemma {:induction false} HexRoundTrip(b: Bytes)
    ensures HexDecode(HexEncode(b)) == Some(b)
  {
    if b != [] {
      HexDigitValue(b[0] / 16);
      HexDigitValue(b[0] % 16);
      HexRoundTrip(b[1..]);
      assert HexEncode(b)[2..] == HexEncode(b[1..]);
      assert [b[0]] + b[1..] == b;
    }
  }

  /** Sixteen digits, written in lower case and read in both. */
  lemma HexTable(n: nat)
    requires n < 16
    ensures HexDigit(n) == "0123456789abcdef"[n]
    ensures HexValue("0123456789abcdef"[n]) == Some(n) && HexValue("0123456789ABCDEF"[n]) == Some(n)
  {
  }

  /** Nothing else is a digit. */
  lemma OnlyTheseDigits(c: char)
    requires HexValue(c).Some?
    ensures HexValue(c).value < 16
    ensures c == "0123456789abcdef"[HexValue(c).value] || c == "0123456789ABCDEF"[HexValue(c).value]
  {
  }

  /** Each byte is written as its high and its low digit, in order. */
  lemma {:induction false} HexEncodeDigits(b: Bytes, i: nat)
    requires i < |b|
    ensures |HexEncode(b)| == 2 * |b|
    ensures HexEncode(b)[2 * i] == "0123456789abcdef"[b[i] / 16]
    ensures HexEncode(b)[2 * i + 1] == "0123456789abcdef"[b[i] % 16]
  {
    HexEncodeLength(b);
    if i > 0 { HexEncodeDigits(b[1..], i - 1); }
  }

  /** A text decodes exactly if it has an even number of characters and all are digits. */
  lemma {:induction false} HexDecodesIff(t: Text)
    ensures HexDecode(t).Some? <==> |t| % 2 == 0 && forall i | 0 <= i < |t| :: HexValue(t[i]).Some?
    decreases |t|
  {
    if |t| >= 2 {
      HexDecodesIff(t[2..]);
      HexValueSmall(t[0]);
      HexValueSmall(t[1]);
      if forall i | 0 <= i < |t[2..]| :: HexValue(t[2..][i]).Some? {
        forall i | 2 <= i < |t| ensures HexValue(t[i]).Some? { assert t[i] == t[2..][i - 2]; }
      }
      if forall i | 0 <= i < |t| :: HexValue(t[i]).Some? {
        forall i | 0 <= i < |t[2..]| ensures HexValue(t[2..][i]).Some? { assert t[2..][i] == t[i + 2]; }
      }
    }
  }

  lemma HexValueSmall(c: char)
    ensures HexValue(c).Some? ==> HexValue(c).value < 16
  {
  }

  // ---------- 32-byte words ----------

  function Zeros(n: nat): (z: Bytes)
    ensures |z| == n && forall i | 0 <= i < n :: z[i] == 0
  {
    if n == 0 then [] else [0] + Zeros(n - 1)
  }

  /** thor.BytesToBytes32: right-aligned, cropped on the left when too long. */
  function BytesToBytes32(b: Bytes): (w: Bytes)
    ensures |w| == 32
  {
    if |b| > 32 then b[|b| - 32..] else Zeros(32 - |b|) + b
  }

  /** Short bytes go to the right end after zeros, long ones lose their front. */
  lemma WordBytes(b: Bytes, i: nat)
    requires i < 32
    ensures BytesToBytes32(b)[i] == if i + |b| < 32 then 0 else b[i + |b| - 32]
  {
  }

  function BigEndian(value: nat, width: nat): (b: Bytes)
    ensures |b| == width
  {
    if width == 0 then [] else BigEndian(value / 256, width - 1) + [value % 256]
  }

  function Number(b: Bytes): nat {
    if b == [] then 0 else Number(b[..|b| - 1]) * 256 + b[|b| - 1]
  }

  function Word(b: Bytes): Text { "0x" + HexEncode(b) }

  // ---------- encoding ----------

  function NameToBytes32(name: Bytes): Text { Word(BytesToBytes32(name)) }

  function Uint32ToBytes32(value: nat, defaultValue: nat): Bytes {
    BigEndian(if value == 0 then defaultValue else value, 32)
  }

  // ---------- decoding ----------

  function TrimPrefix0x(t: Text): Text { if |t| >= 2 && t[..2] == "0x" then t[2..] else t }

  function TrimLeftZeros(b: Bytes): Bytes {
    if b != [] && b[0] == 0 then TrimLeftZeros(b[1..]) else b
  }

  function DecodeKey(key: Text): Option<Bytes> {
    match HexDecode(TrimPrefix0x(key))
    case None => None
    case Some(b) => Some(TrimLeftZeros(b))
  }

  /** strconv.ParseUint of base 16 into 32 bits: an error for no digits, a bad digit, or a value out of range. */
  function ParseHexDigits(t: Text): Option<nat> {
    if t == [] then Some(0) else
      match (ParseHexDigits(t[..|t| - 1]), HexValue(t[|t| - 1]))
      case (Some(n), Some(d)) => Some(n * 16 + d)
      case _ => None
  }

  function ParseStorageValue(value: Bytes): Option<nat> {
    var t := TrimPrefix0x(Word(value));
    if t == [] then None else
      match ParseHexDigits(t)
      case Some(n) => if n < U32 then Some(n) else None
      case None => None
  }

  // ---------- round trips ----------

  lemma {:induction false} TrimZeros(n: nat, b: Bytes)
    requires b == [] || b[0] != 0
    ensures TrimLeftZeros(Zeros(n) + b) == b
  {
    if n == 0 {
      assert Zeros(0) + b == b;
    } else {
      TrimZeros(n - 1, b);
      assert (Zeros(n) + b)[1..] == Zeros(n - 1) + b;
    }
  }

  lemma {:induction false} TrimShape(b: Bytes)
    ensures |TrimLeftZeros(b)| <= |b| && (TrimLeftZeros(b) != [] ==> TrimLeftZeros(b)[0] != 0)
  {
    if b != [] && b[0] == 0 { TrimShape(b[1..]); }
  }

  /** A name survives its storage key exactly if it has at most 32 bytes and does not start with NUL. */
  lemma KeyRoundTrip(name: Bytes)
    ensures DecodeKey(NameToBytes32(name)) == Some(name) <==> |name| <= 32 && (name == [] || name[0] != 0)
  {
    var w := BytesToBytes32(name);
    assert TrimPrefix0x(Word(w)) == HexEncode(w);
    HexRoundTrip(w);
    TrimShape(w);
    if |name| <= 32 && (name == [] || name[0] != 0) {
      TrimZeros(32 - |name|, name);
    }
  }

  lemma {:induction false} BigEndianNumber(value: nat, width: nat)
    requires value < Power256(width)
    ensures Number(BigEndian(value, width)) == value
  {
    if width > 0 {
      BigEndianNumber(value / 256, width - 1);
      var b := BigEndian(value, width);
      assert b[..|b| - 1] == BigEndian(value / 256, width - 1);
    }
  }

  function Power256(n: nat): nat { if n == 0 then 1 else 256 * Power256(n - 1) }

  lemma HexEncodeSnoc(b: Bytes, x: Byte)
    ensures HexEncode(b + [x]) == HexEncode(b) + [HexDigit(x / 16), HexDigit(x % 16)]
  {
    if b == [] {
      assert [x][1..] == [];
    } else {
      HexEncodeSnoc(b[1..], x);
      assert (b + [x])[1..] == b[1..] + [x];
    }
  }

  lemma ParseTwo(t: Text, high: nat, low: nat)
    requires high < 16 && low < 16 && ParseHexDigits(t).Some?
    ensures ParseHexDigits(t + [HexDigit(high), HexDigit(low)]) == Some(ParseHexDigits(t).value * 256 + high * 16 + low)
  {
    HexDigitValue(high);
    HexDigitValue(low);
    var one := t + [HexDigit(high)];
    var two := t + [HexDigit(high), HexDigit(low)];
    assert one[..|one| - 1] == t;
    assert two[..|two| - 1] == one;
  }

  /** Reading the digits of an encoded word gives its number. */
  lemma {:induction false} DigitsOfWord(b: Bytes)
    ensures ParseHexDigits(HexEncode(b)) == Some(Number(b))
  {
    if b != [] {
      var front, x := b[..|b| - 1], b[|b| - 1];
      DigitsOfWord(front);
      assert b == front + [x];
      HexEncodeSnoc(front, x);
      ParseTwo(HexEncode(front), x / 16, x % 16);
    }
  }

  lemma U32FitsWord()
    ensures U32 <= Power256(32)
  {
    assert Power256(4) == U32;
    PowerGrows(4, 28);
  }

  lemma {:induction false} PowerGrows(n: nat, k: nat)
    ensures Power256(n) <= Power256(n + k)
  {
    if k > 0 { PowerGrows(n, k - 1); }
  }

  lemma HexEncodeLength(b: Bytes)
    ensures |HexEncode(b)| == 2 * |b|
  {
  }

  /** Decoding a stored word gives its number when it fits 32 bits and an error otherwise. */
  lemma StorageValueIsNumber(value: Bytes)
    requires value != []
    ensures ParseStorageValue(value) == if Number(value) < U32 then Some(Number(value)) else None
  {
    assert TrimPrefix0x(Word(value)) == HexEncode(value);
    HexEncodeLength(value);
    DigitsOfWord(value);
  }

  /** Every uint32 survives its storage word; zero stands for the default. */
  lemma ValueRoundTrip(value: nat, defaultValue: nat)
    requires value < U32 && defaultValue < U32
    ensures ParseStorageValue(Uint32ToBytes32(value, defaultValue)) == Some(if value == 0 then defaultValue else value)
  {
    U32FitsWord();
    BigEndianNumber(if value == 0 then defaultValue else value, 32);
    StorageValueIsNumber(Uint32ToBytes32(value, defaultValue));
  }

  // ---------- reading back what Apply writes ----------

  type Storage = map<Text, Bytes>

  const MAX_BLOCK_PROPOSERS: Text := "max-block-proposers"

  function AsBytes(t: Text): Bytes
    requires forall i | 0 <= i < |t| :: t[i] < 256 as char
  {
    seq(|t|, i requires 0 <= i < |t| => t[i] as nat)
  }

  function ProposersName(): (b: Bytes)
    ensures |b| == 19 && b[0] != 0
  {
    AsBytes(MAX_BLOCK_PROPOSERS)
  }

  /** A storage key as thor prints one: "0x" and the digits of 32 bytes. */
  predicate IsWordKey(key: Text) {
    HexDecode(TrimPrefix0x(key)).Some? && |HexDecode(TrimPrefix0x(key)).value| == 32
    && key == Word(HexDecode(TrimPrefix0x(key)).value)
  }

  /** The two entries that Config.Apply writes into the params account. */
  method Apply(storage: Storage, maxBlockProposers: nat, stargateKey: Bytes, stargate: Bytes) returns (r: Storage)
    ensures r == Applied(storage, maxBlockProposers, stargateKey, stargate)
  {
    r := storage;
    r := r[NameToBytes32(ProposersName()) := Uint32ToBytes32(maxBlockProposers, 3)];
    r := r[Word(stargateKey) := BytesToBytes32(stargate)];
  }

  function Applied(storage: Storage, maxBlockProposers: nat, stargateKey: Bytes, stargate: Bytes): Storage {
    storage[NameToBytes32(ProposersName()) := Uint32ToBytes32(maxBlockProposers, 3)]
           [Word(stargateKey) := BytesToBytes32(stargate)]
  }

  predicate Names(key: Text) { DecodeKey(key) == Some(ProposersName()) }

  predicate BadEntry(storage: Storage, key: Text)
    requires key in storage
  {
    DecodeKey(key).None? || (Names(key) && ParseStorageValue(storage[key]).None?)
  }

  /** What the reader may return, over all orders in which Go may walk the map. */
  ghost predicate ReadResult(storage: Storage, before: nat, ok: bool, field: nat) {
    && (ok <==> forall key | key in storage :: !BadEntry(storage, key))
    && (ok && (exists key :: key in storage && Names(key)) ==>
          exists key :: key in storage && Names(key) && ParseStorageValue(storage[key]) == Some(field))
    && (ok && (forall key | key in storage :: !Names(key)) ==> field == before)
  }

  /** `processStorageValues` for the one parameter it maps, keys taken in any order. */
  method ProcessStorageValues(storage: Storage, before: nat) returns (ok: bool, field: nat)
    ensures ReadResult(storage, before, ok, field)
  {
    field := before;
    var rest := storage.Keys;
    ghost var done: set<Text> := {};
    while rest != {}
      invariant rest !! done && rest + done == storage.Keys
      invariant forall key | key in done :: !BadEntry(storage, key)
      invariant (exists key :: key in done && Names(key)) ==>
                  exists key :: key in done && Names(key) && ParseStorageValue(storage[key]) == Some(field)
      invariant (forall key | key in done :: !Names(key)) ==> field == before
      decreases rest
    {
      var key :| key in rest;
      rest := rest - {key};
      var name := DecodeKey(key);
      if name.None? {
        assert key in storage && BadEntry(storage, key);
        return false, field;
      }
      if name.value == ProposersName() {
        var value := ParseStorageValue(storage[key]);
        if value.None? {
          assert key in storage && BadEntry(storage, key);
          return false, field;
        }
        field := value.value;
      }
      done := done + {key};
    }
    ok := true;
  }

  lemma {:induction false} TrimInverse(b: Bytes)
    ensures |TrimLeftZeros(b)| <= |b|
    ensures b == Zeros(|b| - |TrimLeftZeros(b)|) + TrimLeftZeros(b)
  {
    if b != [] && b[0] == 0 {
      TrimInverse(b[1..]);
      assert b == [0] + b[1..];
    }
  }

  /** Only one well-formed key carries the name. */
  lemma OneKeyPerName(key: Text)
    requires IsWordKey(key) && Names(key)
    ensures key == NameToBytes32(ProposersName())
  {
    TrimInverse(HexDecode(TrimPrefix0x(key)).value);
  }

  lemma WordIsWordKey(w: Bytes)
    requires |w| == 32
    ensures IsWordKey(Word(w))
  {
    assert TrimPrefix0x(Word(w)) == HexEncode(w);
    HexRoundTrip(w);
  }

  /** What `Apply` leaves in the storage, entry by entry. */
  lemma AppliedEntries(storage: Storage, maxBlockProposers: nat, stargateKey: Bytes, stargate: Bytes, key: Text)
    requires |stargateKey| == 32 && stargateKey != BytesToBytes32(ProposersName())
    ensures var s := Applied(storage, maxBlockProposers, stargateKey, stargate);
            var name := NameToBytes32(ProposersName());
            && name in s && s[name] == BigEndian(if maxBlockProposers == 0 then 3 else maxBlockProposers, 32)
            && Word(stargateKey) in s && s[Word(stargateKey)] == BytesToBytes32(stargate)
            && (key != name && key != Word(stargateKey) ==>
                  (key in s <==> key in storage) && (key in s ==> s[key] == storage[key]))
  {
    hide BytesToBytes32, BigEndian, ProposersName, NameToBytes32, Word, IsWordKey, Names;
    OtherKeyNamesNothing(stargateKey);
    NamesIts(NameToBytes32(ProposersName()));
  }

  /** The prefix of a storage key is optional. */
  lemma PrefixIsOptional(t: Text)
    requires |t| < 2 || t[..2] != "0x"
    ensures DecodeKey("0x" + t) == DecodeKey(t)
  {
    assert ("0x" + t)[2..] == t;
  }

  lemma NamesIts(key: Text)
    requires key == NameToBytes32(ProposersName())
    ensures IsWordKey(key) && Names(key)
  {
    WordIsWordKey(BytesToBytes32(ProposersName()));
    KeyRoundTrip(ProposersName());
  }

  lemma WordKeyDecodes(key: Text)
    requires IsWordKey(key)
    ensures DecodeKey(key).Some?
  {
  }

  lemma OtherKeyNamesNothing(key: Bytes)
    requires |key| == 32 && key != BytesToBytes32(ProposersName())
    ensures IsWordKey(Word(key)) && !Names(Word(key))
  {
    WordIsWordKey(key);
    HexRoundTrip(key);
    HexRoundTrip(BytesToBytes32(ProposersName()));
    assert Word(key)[2..] == HexEncode(key);
    assert NameToBytes32(ProposersName())[2..] == HexEncode(BytesToBytes32(ProposersName()));
    if Names(Word(key)) { OneKeyPerName(Word(key)); }
  }

  /** Whatever was stored before under well-formed keys, and in whatever order the map
      is walked, reading back what Apply wrote gives the configured number of block
      proposers, or 3 when it was zero. */
  lemma ApplyReadsBack(storage: Storage, maxBlockProposers: nat, stargateKey: Bytes, stargate: Bytes, before: nat)
    requires maxBlockProposers < U32 && |stargateKey| == 32 && stargateKey != BytesToBytes32(ProposersName())
    requires forall key | key in storage :: IsWordKey(key)
    ensures forall ok, field: nat | ReadResult(Applied(storage, maxBlockProposers, stargateKey, stargate), before, ok,
              field) ::
              ok && field == if maxBlockProposers == 0 then 3 else maxBlockProposers
  {
    hide Uint32ToBytes32, DecodeKey, ParseStorageValue, Word, HexDecode, TrimPrefix0x, ProposersName, BytesToBytes32,
         IsWordKey, Names;
    var s := Applied(storage, maxBlockProposers, stargateKey, stargate);
    var name := NameToBytes32(ProposersName());
    KeyRoundTrip(ProposersName());
    NamesIts(name);
    OtherKeyNamesNothing(stargateKey);
    ValueRoundTrip(maxBlockProposers, 3);
    assert name in s && s[name] == Uint32ToBytes32(maxBlockProposers, 3);
    forall key | key in s ensures !BadEntry(s, key) && (Names(key) ==> key == name) {
      WordKeyDecodes(key);
      if Names(key) { OneKeyPerName(key); }
    }
  }
}
