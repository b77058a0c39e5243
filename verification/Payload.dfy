// Message payloads that carry the accounts of the call: a scheme byte, then payload and accounts in Borsh or in the
// Solidity ABI encoding.
module Payload {
  import opened Prelude
  import opened Bytes

  datatype EncodingScheme = Borsh | AbiEncoding

  datatype AxelarMessagePayload = AxelarMessagePayload(
    payloadWithoutAccounts: Bytes, solanaAccounts: seq<AccountMeta>, encodingScheme: EncodingScheme)

  datatype PayloadError = InvalidEncodingScheme | BorshSerializeError | BorshDeserializeError | PayloadAbiError

  datatype Content = Content(payload: Bytes, accounts: seq<AccountMeta>)

  // ---------- One account in Borsh: the key and a byte of flags ----------

  function Flags(a: AccountMeta): u8 {
    BoolByte(a.isSigner) + 2 * BoolByte(a.isWritable)
  }

  const ACCOUNT_SIZE: nat := 33

  function BorshAccount(a: AccountMeta): (b: Bytes)
    ensures |b| == ACCOUNT_SIZE
  {
    a.pubkey + [Flags(a)]
  }

  function ParseBorshAccount(b: Bytes): Option<AccountMeta>
    requires |b| == ACCOUNT_SIZE
  {
    if b[32] > 3 then None else Some(AccountMeta(b[..32], b[32] % 2 == 1, b[32] / 2 == 1))
  }

  /** An account and its bytes determine each other. */
  lemma AccountsAndBytesCorrespond(a: AccountMeta, b: Bytes)
    requires |b| == ACCOUNT_SIZE
    ensures ParseBorshAccount(b) == Some(a) <==> BorshAccount(a) == b
  {
    if ParseBorshAccount(b) == Some(a) {
      assert Flags(a) == b[32];
      assert b == b[..32] + [b[32]];
    }
  }

  // ---------- Account lists in Borsh ----------

  function BorshAccounts(accounts: seq<AccountMeta>): Bytes {
    if |accounts| == 0 then [] else BorshAccount(accounts[0]) + BorshAccounts(accounts[1..])
  }

  // Exactly `count` accounts, with no bytes left over.
  function ParseBorshAccounts(b: Bytes, count: nat): Option<seq<AccountMeta>>
    decreases count
  {
    if count == 0 then if b == [] then Some([]) else None
    else if |b| < ACCOUNT_SIZE then None
    else
      match ParseBorshAccount(b[..ACCOUNT_SIZE])
      case None => None
      case Some(a) =>
        match ParseBorshAccounts(b[ACCOUNT_SIZE..], count - 1)
        case None => None
        case Some(others) => Some([a] + others)
  }

  lemma {:induction false} AccountListsAndBytesCorrespond(accounts: seq<AccountMeta>, b: Bytes)
    ensures ParseBorshAccounts(b, |accounts|) == Some(accounts) <==> BorshAccounts(accounts) == b
  {
    if |accounts| == 0 {
    } else if |b| >= ACCOUNT_SIZE {
      var a, others := accounts[0], accounts[1..];
      var head, tail := b[..ACCOUNT_SIZE], b[ACCOUNT_SIZE..];
      assert accounts == [a] + others && b == head + tail;
      AccountsAndBytesCorrespond(a, head);
      AccountListsAndBytesCorrespond(others, tail);
      if BorshAccounts(accounts) == b {
        assert (BorshAccount(a) + BorshAccounts(others))[..ACCOUNT_SIZE] == BorshAccount(a);
        assert (BorshAccount(a) + BorshAccounts(others))[ACCOUNT_SIZE..] == BorshAccounts(others);
      }
      if ParseBorshAccounts(b, |accounts|) == Some(accounts) {
        var first, rest := ParseBorshAccount(head).value, ParseBorshAccounts(tail, |others|).value;
        assert [first] + rest == accounts;
        assert rest == ([first] + rest)[1..];
      }
    }
  }

  lemma {:induction false} ParsedAccountsAreCounted(b: Bytes, count: nat)
    requires ParseBorshAccounts(b, count).Some?
    ensures |ParseBorshAccounts(b, count).value| == count
  {
    if count == 0 {
    } else {
      ParsedAccountsAreCounted(b[ACCOUNT_SIZE..], count - 1);
    }
  }

  // ---------- Borsh payloads ----------

  function BorshBody(c: Content): Result<Bytes, PayloadError> {
    if |c.payload| > U32_MAX || |c.accounts| > U32_MAX then Err(BorshSerializeError)
    else Ok(Length32(|c.payload|) + (c.payload + (Length32(|c.accounts|) + BorshAccounts(c.accounts))))
  }

  function ParseAccountVector(b: Bytes): Option<seq<AccountMeta>> {
    if |b| < 4 then None else ParseBorshAccounts(b[4..], FromLittleEndian(b[..4]))
  }

  function ParseBorshBody(b: Bytes): Result<Content, PayloadError> {
    if |b| < 4 then Err(BorshDeserializeError)
    else
      var length := FromLittleEndian(b[..4]);
      if |b[4..]| < length then Err(BorshDeserializeError)
      else
        match ParseAccountVector(b[4..][length..])
        case None => Err(BorshDeserializeError)
        case Some(accounts) => Ok(Content(b[4..][..length], accounts))
  }

  lemma BorshBodyRoundTrip(c: Content)
    requires BorshBody(c).Ok?
    ensures ParseBorshBody(BorshBody(c).value) == Ok(c)
  {
    var vector := Length32(|c.accounts|) + BorshAccounts(c.accounts);
    Length32RoundTrip(|c.payload|, c.payload + vector);
    assert (c.payload + vector)[..|c.payload|] == c.payload && (c.payload + vector)[|c.payload|..] == vector;
    Length32RoundTrip(|c.accounts|, BorshAccounts(c.accounts));
    AccountListsAndBytesCorrespond(c.accounts, BorshAccounts(c.accounts));
  }

  lemma BorshBodyIsCanonical(b: Bytes)
    requires ParseBorshBody(b).Ok?
    ensures BorshBody(ParseBorshBody(b).value) == Ok(b)
  {
    var c := ParseBorshBody(b).value;
    var vector := b[4..][|c.payload|..];
    Length32IsCanonical(b);
    assert b[4..] == c.payload + vector;
    Length32IsCanonical(vector);
    ParsedAccountsAreCounted(vector[4..], FromLittleEndian(vector[..4]));
    AccountListsAndBytesCorrespond(c.accounts, vector[4..]);
  }

  // ---------- The ABI encoding ----------

  // Section "Formal Specification of the Encoding" of the Solidity Contract ABI Specification: words of 32 bytes, big
  // endian; a tuple of dynamic values is a head of offsets into the encoding followed by the values themselves.
  const WORD: nat := 32

  function Word(n: nat): (w: Bytes)
    ensures |w| == WORD
  {
    BigEndian(n, WORD)
  }

  function Padding(length: nat): (n: nat)
    ensures n < WORD && (length + n) % WORD == 0
  {
    (WORD - length % WORD) % WORD
  }

  function AbiBytes(b: Bytes): Bytes {
    Word(|b|) + (b + Zeros(Padding(|b|)))
  }

  function AbiAccount(a: AccountMeta): (b: Bytes)
    ensures |b| == 3 * WORD
  {
    a.pubkey + (Word(BoolByte(a.isSigner)) + Word(BoolByte(a.isWritable)))
  }

  function AbiAccounts(accounts: seq<AccountMeta>): Bytes {
    if |accounts| == 0 then [] else AbiAccount(accounts[0]) + AbiAccounts(accounts[1..])
  }

  function AbiBody(c: Content): Bytes {
    var payload, accounts := AbiBytes(c.payload), Word(|c.accounts|) + AbiAccounts(c.accounts);
    Word(2 * WORD) + (Word(2 * WORD + |payload|) + (payload + accounts))
  }

  // An offset or a length: one word, which must fit the machine's addresses.
  function ReadOffset(b: Bytes, offsetMax: nat): Option<nat> {
    if |b| < WORD then None
    else
      var n := FromBigEndian(b[..WORD]);
      if n > offsetMax then None else Some(n)
  }

  function ReadAbiBytes(b: Bytes, offsetMax: nat): Option<Bytes> {
    match ReadOffset(b, offsetMax)
    case None => None
    case Some(length) =>
      var rest := b[WORD..];
      if |rest| < length + Padding(length) || !AllZero(rest[length..length + Padding(length)]) then None
      else Some(rest[..length])
  }

  // The three words of an account, as read before their values are looked at.
  datatype AccountWords = AccountWords(pubkey: Key32, signer: Key32, writable: Key32)

  // The account words after the count; what follows them is not looked at.
  function ReadAccountWords(b: Bytes, count: nat): Option<seq<AccountWords>>
    decreases count
  {
    if count == 0 then Some([])
    else if |b| < 3 * WORD then None
    else
      match ReadAccountWords(b[3 * WORD..], count - 1)
      case None => None
      case Some(others) => Some([AccountWords(b[..WORD], b[WORD..2 * WORD], b[2 * WORD..3 * WORD])] + others)
  }

  function ReadAccountArray(b: Bytes, offsetMax: nat): Option<seq<AccountWords>> {
    match ReadOffset(b, offsetMax)
    case None => None
    case Some(count) => ReadAccountWords(b[WORD..], count)
  }

  function Tail(b: Bytes, offset: Option<nat>): Option<Bytes> {
    if offset.None? || offset.value > |b| then None else Some(b[offset.value..])
  }

  // The payload bytes and the account words an encoding points to.
  function ReadTokens(b: Bytes, offsetMax: nat): Option<(Bytes, seq<AccountWords>)> {
    if |b| < WORD then None
    else
      match (Tail(b, ReadOffset(b, offsetMax)), Tail(b, ReadOffset(b[WORD..], offsetMax)))
      case (Some(first), Some(second)) =>
        (match (ReadAbiBytes(first, offsetMax), ReadAccountArray(second, offsetMax))
         case (Some(payload), Some(words)) => Some((payload, words))
         case _ => None)
      case _ => None
  }

  function AccountOf(w: AccountWords): Option<AccountMeta> {
    var signer, writable := FromBigEndian(w.signer), FromBigEndian(w.writable);
    if signer > 1 || writable > 1 then None else Some(AccountMeta(w.pubkey, signer == 1, writable == 1))
  }

  function AccountsOf(words: seq<AccountWords>): Option<seq<AccountMeta>> {
    if |words| == 0 then Some([])
    else
      match (AccountOf(words[0]), AccountsOf(words[1..]))
      case (Some(a), Some(others)) => Some([a] + others)
      case _ => None
  }

  function ParseAbiBody(b: Bytes, offsetMax: nat): Result<Content, PayloadError> {
    match ReadTokens(b, offsetMax)
    case None => Err(PayloadAbiError)
    case Some((payload, words)) =>
      match AccountsOf(words)
      case None => Err(PayloadAbiError)
      case Some(accounts) => Ok(Content(payload, accounts))
  }

  lemma WordRoundTrip(n: nat, rest: Bytes, offsetMax: u64)
    requires n <= offsetMax
    ensures ReadOffset(Word(n) + rest, offsetMax) == Some(n) && (Word(n) + rest)[WORD..] == rest
  {
    ValuesOfWidths();
    BigEndianRoundTrip(n, WORD);
    assert (Word(n) + rest)[..WORD] == Word(n);
  }

  lemma AbiBytesRoundTrip(b: Bytes, rest: Bytes, offsetMax: u64)
    requires |b| <= offsetMax
    ensures ReadAbiBytes(AbiBytes(b) + rest, offsetMax) == Some(b)
  {
    var zeros := Zeros(Padding(|b|));
    var body := (b + zeros) + rest;
    assert AbiBytes(b) + rest == Word(|b|) + body;
    WordRoundTrip(|b|, body, offsetMax);
    assert body[..|b|] == b && body[|b|..|b| + |zeros|] == zeros;
  }

  function WordsOf(a: AccountMeta): AccountWords {
    AccountWords(a.pubkey, Word(BoolByte(a.isSigner)), Word(BoolByte(a.isWritable)))
  }

  lemma ThreeWords(x: Key32, y: Key32, z: Key32, rest: Bytes)
    ensures var b := (x + (y + z)) + rest;
      |b| >= 96 && b[..32] == x && b[32..64] == y && b[64..96] == z && b[96..] == rest
  {}

  lemma BoolWordRoundTrip(b: bool)
    ensures FromBigEndian(Word(BoolByte(b))) == BoolByte(b)
  {
    ValuesOfWidths();
    var n: nat := BoolByte(b);
    BigEndianRoundTrip(n, WORD);
  }

  lemma AccountWordsRoundTrip(a: AccountMeta)
    ensures AccountOf(WordsOf(a)) == Some(a)
  {
    BoolWordRoundTrip(a.isSigner);
    BoolWordRoundTrip(a.isWritable);
  }

  lemma OneMoreIsRead(a: AccountMeta, rest: Bytes, n: nat)
    requires ReadAccountWords(rest, n).Some?
    ensures ReadAccountWords(AbiAccount(a) + rest, n + 1) == Some([WordsOf(a)] + ReadAccountWords(rest, n).value)
  {
    var w := WordsOf(a);
    ThreeWords(w.pubkey, w.signer, w.writable, rest);
  }

  lemma OneMoreIsUnderstood(a: AccountMeta, words: seq<AccountWords>)
    requires AccountsOf(words).Some?
    ensures AccountsOf([WordsOf(a)] + words) == Some([a] + AccountsOf(words).value)
  {
    AccountWordsRoundTrip(a);
    assert ([WordsOf(a)] + words)[1..] == words;
  }

  lemma {:induction false} AccountArrayRoundTrip(accounts: seq<AccountMeta>)
    ensures ReadAccountWords(AbiAccounts(accounts), |accounts|).Some?
    ensures AccountsOf(ReadAccountWords(AbiAccounts(accounts), |accounts|).value) == Some(accounts)
  {
    if |accounts| == 0 {
    } else {
      var a, others := accounts[0], accounts[1..];
      assert accounts == [a] + others;
      AccountArrayRoundTrip(others);
      OneMoreIsRead(a, AbiAccounts(others), |others|);
      OneMoreIsUnderstood(a, ReadAccountWords(AbiAccounts(others), |others|).value);
    }
  }

  lemma TwoHeads(x: Key32, y: Key32, first: Bytes, second: Bytes)
    ensures var b := x + (y + (first + second));
      && |b| == 64 + |first| + |second| && b[32..] == y + (first + second)
      && b[64..] == first + second && b[64 + |first|..] == second
  {
    var b := x + (y + (first + second));
    assert b[64..] == first + second;
    assert b[64 + |first|..] == b[64..][|first|..];
  }

  lemma HeadsRoundTrip(b: Bytes, first: nat, second: nat, value: Bytes, vector: Bytes, offsetMax: u64)
    requires b == Word(first) + (Word(second) + (value + vector))
    requires first == 2 * WORD <= offsetMax && second == first + |value| <= offsetMax
    ensures |b| >= WORD && Tail(b, ReadOffset(b, offsetMax)) == Some(value + vector)
    ensures Tail(b, ReadOffset(b[WORD..], offsetMax)) == Some(vector)
  {
    var x, y := Word(first), Word(second);
    TwoHeads(x, y, value, vector);
    WordRoundTrip(first, y + (value + vector), offsetMax);
    WordRoundTrip(second, value + vector, offsetMax);
  }

  lemma ArrayRoundTrip(accounts: seq<AccountMeta>, offsetMax: u64)
    requires |accounts| <= offsetMax
    ensures var read := ReadAccountArray(Word(|accounts|) + AbiAccounts(accounts), offsetMax);
      read.Some? && AccountsOf(read.value) == Some(accounts)
  {
    WordRoundTrip(|accounts|, AbiAccounts(accounts), offsetMax);
    AccountArrayRoundTrip(accounts);
  }

  lemma ParsedFromTails(b: Bytes, first: Bytes, second: Bytes, c: Content, offsetMax: u64)
    requires |b| >= WORD && Tail(b, ReadOffset(b, offsetMax)) == Some(first)
    requires Tail(b, ReadOffset(b[WORD..], offsetMax)) == Some(second)
    requires ReadAbiBytes(first, offsetMax) == Some(c.payload) && ReadAccountArray(second, offsetMax).Some?
    requires AccountsOf(ReadAccountArray(second, offsetMax).value) == Some(c.accounts)
    ensures ParseAbiBody(b, offsetMax) == Ok(c)
  {}

  lemma AbiBodyRoundTrip(c: Content, offsetMax: u64)
    requires |AbiBody(c)| <= offsetMax && |c.accounts| <= offsetMax
    ensures ParseAbiBody(AbiBody(c), offsetMax) == Ok(c)
  {
    var value, vector := AbiBytes(c.payload), Word(|c.accounts|) + AbiAccounts(c.accounts);
    HeadsRoundTrip(AbiBody(c), 2 * WORD, 2 * WORD + |value|, value, vector, offsetMax);
    AbiBytesRoundTrip(c.payload, vector, offsetMax);
    ArrayRoundTrip(c.accounts, offsetMax);
    ParsedFromTails(AbiBody(c), value + vector, vector, c, offsetMax);
  }

  // Every account takes room, so there are fewer accounts than bytes.
  lemma {:induction false} AccountsFitTheirBytes(accounts: seq<AccountMeta>)
    ensures |AbiAccounts(accounts)| == 96 * |accounts|
    ensures |BorshAccounts(accounts)| == ACCOUNT_SIZE * |accounts|
  {
    if |accounts| == 0 {
    } else {
      AccountsFitTheirBytes(accounts[1..]);
    }
  }

  // ---------- Payloads with their scheme ----------

  function SchemeByte(scheme: EncodingScheme): u8 {
    match scheme
    case Borsh => 0
    case AbiEncoding => 1
  }

  function ContentOf(p: AxelarMessagePayload): Content {
    Content(p.payloadWithoutAccounts, p.solanaAccounts)
  }

  function Encode(p: AxelarMessagePayload): Result<Bytes, PayloadError> {
    match p.encodingScheme
    case Borsh =>
      var body :- BorshBody(ContentOf(p));
      Ok([SchemeByte(Borsh)] + body)
    case AbiEncoding => Ok([SchemeByte(AbiEncoding)] + AbiBody(ContentOf(p)))
  }

  function Decode(b: Bytes, offsetMax: nat): Result<AxelarMessagePayload, PayloadError> {
    if b == [] then Err(InvalidEncodingScheme)
    else if b[0] == SchemeByte(Borsh) then
      var c :- ParseBorshBody(b[1..]);
      Ok(AxelarMessagePayload(c.payload, c.accounts, Borsh))
    else if b[0] == SchemeByte(AbiEncoding) then
      var c :- ParseAbiBody(b[1..], offsetMax);
      Ok(AxelarMessagePayload(c.payload, c.accounts, AbiEncoding))
    else Err(InvalidEncodingScheme)
  }

  /** Decoding undoes encoding: for Borsh whenever there is an encoding, and for the ABI encoding whenever the encoding
      fits the machine's addresses, as every slice in memory does. */
  lemma DecodeUndoesEncode(p: AxelarMessagePayload, offsetMax: u64)
    requires Encode(p).Ok? && (p.encodingScheme == AbiEncoding ==> |Encode(p).value| <= offsetMax)
    ensures Decode(Encode(p).value, offsetMax) == Ok(p)
  {
    var b, c := Encode(p).value, ContentOf(p);
    match p.encodingScheme
    case Borsh =>
      assert b[1..] == BorshBody(c).value;
      BorshBodyRoundTrip(c);
    case AbiEncoding =>
      assert b[1..] == AbiBody(c);
      AccountsFitTheirBytes(c.accounts);
      AbiBodyRoundTrip(c, offsetMax);
  }

  /** Borsh encodings are canonical: a byte string with the Borsh scheme decodes to a payload exactly when the payload
      encodes to it, so no other bytes are accepted for it. */
  lemma BorshEncodingsAreCanonical(b: Bytes, p: AxelarMessagePayload, offsetMax: u64)
    requires p.encodingScheme == Borsh
    ensures Decode(b, offsetMax) == Ok(p) <==> Encode(p) == Ok(b)
  {
    if Decode(b, offsetMax) == Ok(p) {
      assert b == [b[0]] + b[1..];
      BorshBodyIsCanonical(b[1..]);
    }
    if Encode(p) == Ok(b) {
      DecodeUndoesEncode(p, offsetMax);
    }
  }

  /** Equal encodings mean the same scheme, the same payload, and the same accounts with the same flags. */
  lemma EncodingsAreUnambiguous(p: AxelarMessagePayload, q: AxelarMessagePayload)
    requires Encode(p).Ok? && Encode(p) == Encode(q)
    requires p.encodingScheme == AbiEncoding ==> |Encode(p).value| <= U64_MAX
    ensures p == q
  {
    assert Encode(p).value[0] == SchemeByte(p.encodingScheme);
    assert Encode(q).value[0] == SchemeByte(q.encodingScheme);
    DecodeUndoesEncode(p, U64_MAX);
    DecodeUndoesEncode(q, U64_MAX);
  }

  /** Borsh encoding fails exactly when a length does not fit four bytes. */
  lemma BorshEncodesShortLists(p: AxelarMessagePayload)
    requires p.encodingScheme == Borsh
    ensures Encode(p).Ok? <==> |p.payloadWithoutAccounts| <= U32_MAX && |p.solanaAccounts| <= U32_MAX
  {}

  // ---------- The codec as written: bytes appended to a vector and read off a slice ----------

  method SerializeAccount(a: AccountMeta, writer: Writer)
    modifies writer
    ensures writer.written == old(writer.written) + BorshAccount(a)
  {
    writer.WriteAll(a.pubkey);
    writer.WriteAll([Flags(a)]);
    assert writer.written == old(writer.written) + BorshAccount(a);
  }

  // Fails when the bytes run out or a flag beyond the two is set.
  method DeserializeAccount(reader: Reader) returns (r: Option<AccountMeta>)
    modifies reader
    ensures r.Some? ==> old(reader.rest) == BorshAccount(r.value) + reader.rest
    ensures r.None? ==> forall a: AccountMeta, rest: Bytes :: old(reader.rest) != BorshAccount(a) + rest
    ensures r == if |old(reader.rest)| < ACCOUNT_SIZE then None else ParseBorshAccount(old(reader.rest)[..ACCOUNT_SIZE])
    ensures r.Some? ==> reader.rest == old(reader.rest)[ACCOUNT_SIZE..]
  {
    ghost var start := reader.rest;
    var key := reader.ReadExact(32);
    if key.None? {
      return None;
    }
    var flags := reader.ReadExact(1);
    if flags.None? {
      return None;
    }
    var rest := reader.rest;
    assert start == (key.value + flags.value) + rest;
    assert start[..ACCOUNT_SIZE] == key.value + flags.value;
    if flags.value[0] > 3 {
      forall a: AccountMeta, tail: Bytes
        ensures start != BorshAccount(a) + tail
      {
        assert (BorshAccount(a) + tail)[32] == Flags(a);
      }
      return None;
    }
    var a := AccountMeta(key.value, flags.value[0] % 2 == 1, flags.value[0] / 2 == 1);
    AccountsAndBytesCorrespond(a, start[..ACCOUNT_SIZE]);
    r := Some(a);
  }

  method SerializeAccounts(accounts: seq<AccountMeta>, writer: Writer)
    modifies writer
    ensures writer.written == old(writer.written) + (Length32(|accounts|) + BorshAccounts(accounts))
  {
    writer.WriteAll(Length32(|accounts|));
    var i := 0;
    while i < |accounts|
      invariant i <= |accounts|
      invariant writer.written + BorshAccounts(accounts[i..]) ==
        old(writer.written) + (Length32(|accounts|) + BorshAccounts(accounts))
    {
      ghost var todo, before := accounts[i..], writer.written;
      assert todo[1..] == accounts[i + 1..];
      SerializeAccount(accounts[i], writer);
      assert before + (BorshAccount(todo[0]) + BorshAccounts(todo[1..]))
          == before + BorshAccount(todo[0]) + BorshAccounts(todo[1..]);
      i := i + 1;
    }
    assert accounts[i..] == [] && writer.written + [] == writer.written;
  }

  lemma Regrouped(a: Bytes, b: Bytes, c: Bytes, d: Bytes)
    ensures a + (b + (c + d)) == a + b + c + d
  {}

  method EncodeBorsh(p: AxelarMessagePayload) returns (r: Result<Bytes, PayloadError>)
    requires p.encodingScheme == Borsh
    ensures r == Encode(p)
  {
    if |p.payloadWithoutAccounts| > U32_MAX {
      return Err(BorshSerializeError);
    }
    var writer := new Writer([SchemeByte(Borsh)]);
    writer.WriteAll(Length32(|p.payloadWithoutAccounts|));
    writer.WriteAll(p.payloadWithoutAccounts);
    if |p.solanaAccounts| > U32_MAX {
      return Err(BorshSerializeError);
    }
    SerializeAccounts(p.solanaAccounts, writer);
    Regrouped([SchemeByte(Borsh)], Length32(|p.payloadWithoutAccounts|), p.payloadWithoutAccounts,
              Length32(|p.solanaAccounts|) + BorshAccounts(p.solanaAccounts));
    r := Ok(writer.written);
  }

  // The accounts parsed from the bytes, after those collected so far.
  function ExtendedBorsh(collected: seq<AccountMeta>, b: Bytes, count: nat): Option<seq<AccountMeta>> {
    match ParseBorshAccounts(b, count)
    case None => None
    case Some(accounts) => Some(collected + accounts)
  }

  lemma OneMoreBorshAccount(collected: seq<AccountMeta>, b: Bytes, count: nat)
    requires count > 0
    ensures ExtendedBorsh(collected, b, count) ==
      if |b| < ACCOUNT_SIZE || ParseBorshAccount(b[..ACCOUNT_SIZE]).None? then None
      else ExtendedBorsh(collected + [ParseBorshAccount(b[..ACCOUNT_SIZE]).value], b[ACCOUNT_SIZE..], count - 1)
  {
    if ParseBorshAccounts(b, count).Some? {
      var a := ParseBorshAccount(b[..ACCOUNT_SIZE]).value;
      var others := ParseBorshAccounts(b[ACCOUNT_SIZE..], count - 1).value;
      assert collected + ([a] + others) == (collected + [a]) + others;
    }
  }

  // Reads the count and then that many accounts; all bytes must be used up.
  method DeserializeAccounts(b: Bytes) returns (r: Option<seq<AccountMeta>>)
    ensures r == ParseAccountVector(b)
  {
    var reader := new Reader(b);
    var length := reader.ReadExact(4);
    if length.None? {
      return None;
    }
    var count := FromLittleEndian(length.value);
    var accounts: seq<AccountMeta> := [];
    var i := 0;
    assert ParseBorshAccounts(b[4..], count).Some? ==>
      [] + ParseBorshAccounts(b[4..], count).value == ParseBorshAccounts(b[4..], count).value;
    while i < count
      invariant i <= count
      invariant ExtendedBorsh(accounts, reader.rest, count - i) == ParseAccountVector(b)
    {
      OneMoreBorshAccount(accounts, reader.rest, count - i);
      var a := DeserializeAccount(reader);
      if a.None? {
        return None;
      }
      accounts := accounts + [a.value];
      i := i + 1;
    }
    if reader.rest != [] {
      return None;
    }
    assert accounts + [] == accounts;
    r := Some(accounts);
  }

  method DecodeBorsh(b: Bytes) returns (r: Result<Content, PayloadError>)
    ensures r == ParseBorshBody(b)
  {
    if |b| < 4 {
      return Err(BorshDeserializeError);
    }
    var length := FromLittleEndian(b[..4]);
    var rest := b[4..];
    if |rest| < length {
      return Err(BorshDeserializeError);
    }
    var accounts := DeserializeAccounts(rest[length..]);
    r := if accounts.None? then Err(BorshDeserializeError) else Ok(Content(rest[..length], accounts.value));
  }

  method EncodeAbi(p: AxelarMessagePayload) returns (r: Result<Bytes, PayloadError>)
    requires p.encodingScheme == AbiEncoding
    ensures r == Encode(p)
  {
    var writer := new Writer([SchemeByte(AbiEncoding)]);
    writer.WriteAll(AbiBody(ContentOf(p)));
    r := Ok(writer.written);
  }

  // The accounts of all words, after those collected so far.
  function Extended(collected: seq<AccountMeta>, words: seq<AccountWords>): Option<seq<AccountMeta>> {
    match AccountsOf(words)
    case None => None
    case Some(accounts) => Some(collected + accounts)
  }

  lemma OneMoreAccount(collected: seq<AccountMeta>, words: seq<AccountWords>)
    requires |words| > 0
    ensures Extended(collected, words) ==
      if AccountOf(words[0]).None? then None else Extended(collected + [AccountOf(words[0]).value], words[1..])
  {
    if AccountOf(words[0]).Some? && AccountsOf(words[1..]).Some? {
      var a, others := AccountOf(words[0]).value, AccountsOf(words[1..]).value;
      assert collected + ([a] + others) == (collected + [a]) + others;
    }
  }

  // Pushes the accounts one by one, and stops at the first with a flag word other than zero or one.
  method AccountsOfWords(words: seq<AccountWords>) returns (r: Option<seq<AccountMeta>>)
    ensures r == AccountsOf(words)
  {
    var accounts: seq<AccountMeta> := [];
    var i := 0;
    assert words[0..] == words;
    NothingCollected(words);
    while i < |words|
      invariant i <= |words|
      invariant Extended(accounts, words[i..]) == AccountsOf(words)
    {
      OneMoreAccount(accounts, words[i..]);
      assert words[i..][1..] == words[i + 1..];
      var signer := FromBigEndian(words[i].signer);
      if signer > 1 {
        return None;
      }
      var writable := FromBigEndian(words[i].writable);
      if writable > 1 {
        return None;
      }
      accounts := accounts + [AccountMeta(words[i].pubkey, signer == 1, writable == 1)];
      i := i + 1;
    }
    assert words[i..] == [] && accounts + [] == accounts;
    r := Some(accounts);
  }

  lemma NothingCollected(words: seq<AccountWords>)
    ensures Extended([], words) == AccountsOf(words)
  {
    if AccountsOf(words).Some? {
      assert [] + AccountsOf(words).value == AccountsOf(words).value;
    }
  }

  method ExtractPayloadSliceAndSolanaAccounts(data: Bytes, offsetMax: nat) returns (r: Result<Content, PayloadError>)
    ensures r == ParseAbiBody(data, offsetMax)
  {
    var tokens := ReadTokens(data, offsetMax);
    if tokens.None? {
      return Err(PayloadAbiError);
    }
    var accounts := AccountsOfWords(tokens.value.1);
    r := if accounts.None? then Err(PayloadAbiError) else Ok(Content(tokens.value.0, accounts.value));
  }
}
