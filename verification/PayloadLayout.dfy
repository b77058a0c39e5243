// Where every byte of an encoded payload is, in numbers: what the formats promise to other programs.
module PayloadLayout {
  import opened Prelude
  import opened Bytes
  import opened Payload

  // ---------- Borsh ----------

  // 33 bytes from position i on: the key, then one for a signer plus two for a writable account.
  predicate BorshAccountAt(b: Bytes, i: nat, a: AccountMeta) {
    && i + 33 <= |b| && b[i..i + 32] == a.pubkey
    && At(b, i + 32) == (if a.isSigner then 1 else 0) + (if a.isWritable then 2 else 0)
  }

  // The accounts one after the other, from that position on.
  predicate BorshAccountsAt(b: Bytes, start: nat, accounts: seq<AccountMeta>) {
    forall i :: 0 <= i < |accounts| ==> BorshAccountAt(b, start + 33 * i, accounts[i])
  }

  lemma OneBorshAccount(b: Bytes, a: AccountMeta)
    requires |b| == 33
    ensures b == BorshAccount(a) <==> BorshAccountAt(b, 0, a)
  {
    assert b == b[..32] + [b[32]] && b[..32] == b[0..32];
  }

  lemma BorshAccountsShift(b: Bytes, start: nat, accounts: seq<AccountMeta>)
    requires start <= |b|
    ensures BorshAccountsAt(b[start..], 0, accounts) <==> BorshAccountsAt(b, start, accounts)
  {
    forall i | 0 <= i < |accounts|
      ensures BorshAccountAt(b[start..], 33 * i, accounts[i]) <==> BorshAccountAt(b, start + 33 * i, accounts[i])
    {
      if start + 33 * i + 33 <= |b| {
        assert b[start..][33 * i..33 * i + 32] == b[start + 33 * i..start + 33 * i + 32];
      }
    }
  }

  lemma FirstBorshAccount(b: Bytes, accounts: seq<AccountMeta>)
    requires |accounts| > 0 && |b| >= 33
    ensures BorshAccountsAt(b, 0, accounts) <==>
      BorshAccountAt(b[..33], 0, accounts[0]) && BorshAccountsAt(b[33..], 0, accounts[1..])
  {
    assert b[..33][0..32] == b[0..32];
    BorshAccountsShift(b, 33, accounts[1..]);
    if BorshAccountsAt(b, 0, accounts) {
      assert BorshAccountAt(b, 33 * 0, accounts[0]);
      forall i | 0 <= i < |accounts| - 1
        ensures BorshAccountAt(b, 33 + 33 * i, accounts[1..][i])
      {
        assert BorshAccountAt(b, 0 + 33 * (i + 1), accounts[i + 1]);
      }
    }
    if BorshAccountAt(b[..33], 0, accounts[0]) && BorshAccountsAt(b, 33, accounts[1..]) {
      forall i | 0 < i < |accounts|
        ensures BorshAccountAt(b, 0 + 33 * i, accounts[i])
      {
        assert BorshAccountAt(b, 33 + 33 * (i - 1), accounts[1..][i - 1]);
      }
    }
  }

  lemma {:induction false} BorshAccountsAreLaidOut(b: Bytes, accounts: seq<AccountMeta>)
    ensures b == BorshAccounts(accounts) <==> |b| == 33 * |accounts| && BorshAccountsAt(b, 0, accounts)
  {
    AccountsFitTheirBytes(accounts);
    if |accounts| == 0 {
    } else if |b| >= 33 {
      var head, tail, others := b[..33], b[33..], accounts[1..];
      var a, rest := BorshAccount(accounts[0]), BorshAccounts(others);
      assert b == head + tail;
      assert (a + rest)[..33] == a && (a + rest)[33..] == rest;
      OneBorshAccount(head, accounts[0]);
      BorshAccountsAreLaidOut(tail, others);
      FirstBorshAccount(b, accounts);
    }
  }

  // Scheme byte 0, payload length, payload, number of accounts, accounts.
  predicate BorshLaidOut(b: Bytes, payload: Bytes, accounts: seq<AccountMeta>) {
    var n, m := |payload|, |accounts|;
    && |b| == 9 + n + 33 * m && b[0] == 0
    && Le32At(b, 1, n) && b[5..5 + n] == payload
    && Le32At(b, 5 + n, m) && BorshAccountsAt(b, 9 + n, accounts)
  }

  lemma FourParts(b: Bytes, x: Bytes, y: Bytes, z: Bytes, tail: Bytes)
    requires |x| == 4 && |z| == 4 && |b| == 9 + |y| + |tail|
    ensures var n := |y|;
      b == [0] + (x + (y + (z + tail))) <==>
        b[0] == 0 && b[1..5] == x && b[5..5 + n] == y && b[5 + n..9 + n] == z && b[9 + n..] == tail
  {
    TwoParts(b, 1, x, y + (z + tail));
    TwoParts(b, 5, y, z + tail);
    TwoParts(b, 5 + |y|, z, tail);
    assert b == [b[0]] + b[1..];
  }

  lemma BorshAccountsFrom(b: Bytes, start: nat, accounts: seq<AccountMeta>)
    requires |b| == start + 33 * |accounts|
    ensures b[start..] == BorshAccounts(accounts) <==> BorshAccountsAt(b, start, accounts)
  {
    BorshAccountsShift(b, start, accounts);
    BorshAccountsAreLaidOut(b[start..], accounts);
  }

  // The four bytes x are those that hold this length at position i.
  predicate HeldBy(b: Bytes, i: nat, n: nat, x: Bytes)
    requires i + 4 <= |b|
  {
    Le32At(b, i, n) <==> n <= U32_MAX && b[i..i + 4] == x
  }

  lemma LengthsAreHeld(b: Bytes, i: nat, n: nat)
    requires i + 4 <= |b|
    ensures HeldBy(b, i, n, Length32(n))
  {
    Length32ByBytes(b, i, n);
  }

  // The layout, given the bytes of the two lengths and of the accounts.
  lemma LaidOutInParts(b: Bytes, payload: Bytes, accounts: seq<AccountMeta>, x: Bytes, z: Bytes, t: Bytes)
    requires |x| == 4 && |z| == 4 && |t| == 33 * |accounts| && |b| == 9 + |payload| + |t|
    requires HeldBy(b, 1, |payload|, x) && HeldBy(b, 5 + |payload|, |accounts|, z)
    requires b[9 + |payload|..] == t <==> BorshAccountsAt(b, 9 + |payload|, accounts)
    ensures BorshLaidOut(b, payload, accounts) <==>
      |payload| <= U32_MAX && |accounts| <= U32_MAX && b == [0] + (x + (payload + (z + t)))
  {
    FourParts(b, x, payload, z, t);
  }

  lemma BorshPartsAreLaidOut(b: Bytes, payload: Bytes, accounts: seq<AccountMeta>)
    requires |b| == 9 + |payload| + 33 * |accounts|
    ensures BorshLaidOut(b, payload, accounts) <==>
      && |payload| <= U32_MAX && |accounts| <= U32_MAX
      && b == [0] + (Length32(|payload|) + (payload + (Length32(|accounts|) + BorshAccounts(accounts))))
  {
    hide Le32At, BorshAccountsAt, HeldBy;
    AccountsFitTheirBytes(accounts);
    LengthsAreHeld(b, 1, |payload|);
    LengthsAreHeld(b, 5 + |payload|, |accounts|);
    BorshAccountsFrom(b, 9 + |payload|, accounts);
    LaidOutInParts(b, payload, accounts, Length32(|payload|), Length32(|accounts|), BorshAccounts(accounts));
  }

  /** A Borsh payload encodes to exactly the bytes with this layout, and decodes from exactly those. */
  lemma BorshLayoutIsExact(b: Bytes, p: AxelarMessagePayload, offsetMax: u64)
    requires p.encodingScheme == Borsh
    ensures Encode(p) == Ok(b) <==> BorshLaidOut(b, p.payloadWithoutAccounts, p.solanaAccounts)
    ensures Decode(b, offsetMax) == Ok(p) <==> BorshLaidOut(b, p.payloadWithoutAccounts, p.solanaAccounts)
  {
    AccountsFitTheirBytes(p.solanaAccounts);
    if |b| == 9 + |p.payloadWithoutAccounts| + 33 * |p.solanaAccounts| {
      BorshPartsAreLaidOut(b, p.payloadWithoutAccounts, p.solanaAccounts);
    }
    BorshEncodingsAreCanonical(b, p, offsetMax);
  }

  // ---------- The ABI encoding ----------

  // Three words from position i on: the key, whether it signs, whether it is writable.
  predicate AbiAccountAt(b: Bytes, i: nat, a: AccountMeta) {
    && i + 96 <= |b| && b[i..i + 32] == a.pubkey
    && WordAt(b, i + 32, if a.isSigner then 1 else 0) && WordAt(b, i + 64, if a.isWritable then 1 else 0)
  }

  // The accounts one after the other, from that position on, whatever follows them.
  predicate AbiAccountsAt(b: Bytes, start: nat, accounts: seq<AccountMeta>) {
    forall i :: 0 <= i < |accounts| ==> AbiAccountAt(b, start + 96 * i, accounts[i])
  }

  // The zeros that fill up the last word.
  function Filler(length: nat): nat {
    if length % 32 == 0 then 0 else 32 - length % 32
  }

  // A payload at an offset: its length, its bytes, the filler.
  predicate AbiBytesAt(b: Bytes, i: nat, payload: Bytes) {
    var n := |payload|;
    && WordAt(b, i, n) && i + 32 + n + Filler(n) <= |b|
    && b[i + 32..i + 32 + n] == payload && AllZero(b[i + 32 + n..i + 32 + n + Filler(n)])
  }

  // Accounts at an offset: their number, then one after the other.
  predicate AbiArrayAt(b: Bytes, i: nat, accounts: seq<AccountMeta>) {
    WordAt(b, i, |accounts|) && AbiAccountsAt(b, i + 32, accounts)
  }

  // What the words of an encoding say: the offsets of the two values, and the values at those offsets.
  predicate AbiReads(b: Bytes, first: nat, second: nat, payload: Bytes, accounts: seq<AccountMeta>) {
    WordAt(b, 0, first) && WordAt(b, 32, second) && AbiBytesAt(b, first, payload) && AbiArrayAt(b, second, accounts)
  }

  lemma WordsShift(b: Bytes, start: nat, i: nat, n: nat)
    requires start <= |b|
    ensures WordAt(b[start..], i, n) <==> WordAt(b, start + i, n)
  {
    if start + i + 32 <= |b| {
      assert b[start..][i..i + 24] == b[start + i..start + i + 24];
    }
  }

  lemma AbiAccountShifts(b: Bytes, start: nat, i: nat, a: AccountMeta)
    requires start <= |b|
    ensures AbiAccountAt(b[start..], i, a) <==> AbiAccountAt(b, start + i, a)
  {
    if start + i + 96 <= |b| {
      assert b[start..][i..i + 32] == b[start + i..start + i + 32];
      WordsShift(b, start, i + 32, if a.isSigner then 1 else 0);
      WordsShift(b, start, i + 64, if a.isWritable then 1 else 0);
    }
  }

  // A flag word holds zero or one.
  lemma FlagWord(b: Bytes, i: nat, flag: bool)
    requires i + 32 <= |b|
    ensures var n := FromBigEndian(b[i..i + 32]);
      (n <= 1 && (n == 1) == flag) <==> WordAt(b, i, if flag then 1 else 0)
  {
    BigEndianByBytes(b, i, if flag then 1 else 0);
  }

  lemma OneAbiAccount(b: Bytes, a: AccountMeta)
    requires |b| >= 96
    ensures AccountOf(AccountWords(b[..32], b[32..64], b[64..96])) == Some(a) <==> AbiAccountAt(b, 0, a)
  {
    FlagWord(b, 32, a.isSigner);
    FlagWord(b, 64, a.isWritable);
    assert b[0..32] == b[..32];
  }

  lemma AbiAccountsShift(b: Bytes, start: nat, accounts: seq<AccountMeta>)
    requires start <= |b|
    ensures AbiAccountsAt(b[start..], 0, accounts) <==> AbiAccountsAt(b, start, accounts)
  {
    forall i | 0 <= i < |accounts|
      ensures AbiAccountAt(b[start..], 96 * i, accounts[i]) <==> AbiAccountAt(b, start + 96 * i, accounts[i])
    {
      AbiAccountShifts(b, start, 96 * i, accounts[i]);
    }
  }

  lemma FirstAbiAccount(b: Bytes, accounts: seq<AccountMeta>)
    requires |accounts| > 0 && |b| >= 96
    ensures AbiAccountsAt(b, 0, accounts) <==>
      AbiAccountAt(b, 0, accounts[0]) && AbiAccountsAt(b[96..], 0, accounts[1..])
  {
    AbiAccountsShift(b, 96, accounts[1..]);
    if AbiAccountsAt(b, 0, accounts) {
      assert AbiAccountAt(b, 96 * 0, accounts[0]);
      forall i | 0 <= i < |accounts| - 1
        ensures AbiAccountAt(b, 96 + 96 * i, accounts[1..][i])
      {
        assert AbiAccountAt(b, 0 + 96 * (i + 1), accounts[i + 1]);
      }
    }
    if AbiAccountAt(b, 0, accounts[0]) && AbiAccountsAt(b, 96, accounts[1..]) {
      forall i | 0 < i < |accounts|
        ensures AbiAccountAt(b, 0 + 96 * i, accounts[i])
      {
        assert AbiAccountAt(b, 96 + 96 * (i - 1), accounts[1..][i - 1]);
      }
    }
  }

  // The accounts read from that many triples of words.
  function ReadAccountsOf(b: Bytes, count: nat): Option<seq<AccountMeta>> {
    match ReadAccountWords(b, count)
    case None => None
    case Some(words) => AccountsOf(words)
  }

  lemma ReadOneMore(b: Bytes, count: nat)
    requires count > 0 && |b| >= 96
    ensures ReadAccountsOf(b, count) ==
      match (AccountOf(AccountWords(b[..32], b[32..64], b[64..96])), ReadAccountsOf(b[96..], count - 1))
      case (Some(a), Some(others)) => Some([a] + others)
      case _ => None
  {
    if ReadAccountWords(b[96..], count - 1).Some? {
      var w, others := AccountWords(b[..32], b[32..64], b[64..96]), ReadAccountWords(b[96..], count - 1).value;
      assert ([w] + others)[1..] == others;
    }
  }

  lemma {:induction false} AccountsAreReadExactly(b: Bytes, count: nat, accounts: seq<AccountMeta>)
    requires count == |accounts|
    ensures ReadAccountsOf(b, count) == Some(accounts) <==> AbiAccountsAt(b, 0, accounts)
  {
    if count == 0 {
    } else if |b| < 96 {
      assert AbiAccountsAt(b, 0, accounts) ==> AbiAccountAt(b, 96 * 0, accounts[0]);
    } else {
      ReadOneMore(b, count);
      OneAbiAccount(b, accounts[0]);
      AccountsAreReadExactly(b[96..], count - 1, accounts[1..]);
      FirstAbiAccount(b, accounts);
      assert accounts == [accounts[0]] + accounts[1..];
      forall a: AccountMeta, others: seq<AccountMeta> | [a] + others == accounts
        ensures a == accounts[0] && others == accounts[1..]
      {
        assert ([a] + others)[1..] == others;
      }
    }
  }

  lemma OffsetIsWord(b: Bytes, i: nat, n: nat, offsetMax: u64)
    requires i <= |b|
    ensures ReadOffset(b[i..], offsetMax) == Some(n) <==> n <= offsetMax && WordAt(b, i, n)
  {
    if i + 32 <= |b| {
      assert b[i..][..32] == b[i..i + 32];
      if n <= U64_MAX {
        BigEndianByBytes(b, i, n);
      } else {
        WordByBytes(b, i, n);
      }
    }
  }

  lemma BytesBehind(b: Bytes, i: nat, n: nat)
    requires i + 32 + n + Filler(n) <= |b|
    ensures var rest := b[i..][32..];
      && |rest| >= n + Filler(n) && rest[..n] == b[i + 32..i + 32 + n]
      && rest[n..n + Filler(n)] == b[i + 32 + n..i + 32 + n + Filler(n)]
  {}

  lemma FillerIsPadding(n: nat)
    ensures Filler(n) == Padding(n)
  {}

  lemma BytesAreCounted(b: Bytes, payload: Bytes, offsetMax: nat)
    ensures var n := |payload|;
      ReadAbiBytes(b, offsetMax) == Some(payload) <==>
        && ReadOffset(b, offsetMax) == Some(n) && |b| >= 32 + n + Filler(n)
        && b[32..][..n] == payload && AllZero(b[32..][n..n + Filler(n)])
  {
    FillerIsPadding(|payload|);
  }

  lemma BytesAreReadExactly(b: Bytes, i: nat, payload: Bytes, offsetMax: u64)
    requires i <= |b|
    ensures ReadAbiBytes(b[i..], offsetMax) == Some(payload) <==> |payload| <= offsetMax && AbiBytesAt(b, i, payload)
  {
    hide WordAt;
    OffsetIsWord(b, i, |payload|, offsetMax);
    BytesAreCounted(b[i..], payload, offsetMax);
    if i + 32 + |payload| + Filler(|payload|) <= |b| {
      BytesBehind(b, i, |payload|);
    }
  }

  lemma {:induction false} CountsOfAccounts(words: seq<AccountWords>)
    ensures AccountsOf(words).Some? ==> |AccountsOf(words).value| == |words|
  {
    if |words| == 0 {
    } else {
      CountsOfAccounts(words[1..]);
    }
  }

  lemma {:induction false} CountsOfWords(b: Bytes, count: nat)
    ensures ReadAccountWords(b, count).Some? ==> |ReadAccountWords(b, count).value| == count
    decreases count
  {
    if count == 0 {
    } else if |b| >= 96 {
      CountsOfWords(b[96..], count - 1);
    }
  }

  function ReadAccountsAt(b: Bytes, offsetMax: nat): Option<seq<AccountMeta>> {
    match ReadAccountArray(b, offsetMax)
    case None => None
    case Some(words) => AccountsOf(words)
  }

  lemma ReadAccountsAreCounted(b: Bytes, count: nat)
    ensures ReadAccountsOf(b, count).Some? ==> |ReadAccountsOf(b, count).value| == count
  {
    CountsOfWords(b, count);
    if ReadAccountWords(b, count).Some? {
      CountsOfAccounts(ReadAccountWords(b, count).value);
    }
  }

  lemma ArrayIsCounted(b: Bytes, offsetMax: nat)
    ensures ReadAccountsAt(b, offsetMax) == match ReadOffset(b, offsetMax)
      case None => None
      case Some(count) => ReadAccountsOf(b[32..], count)
  {}

  lemma ArraysAreReadExactly(b: Bytes, i: nat, accounts: seq<AccountMeta>, offsetMax: u64)
    requires i <= |b|
    ensures ReadAccountsAt(b[i..], offsetMax) == Some(accounts) <==>
      |accounts| <= offsetMax && AbiArrayAt(b, i, accounts)
  {
    OffsetIsWord(b, i, |accounts|, offsetMax);
    ArrayIsCounted(b[i..], offsetMax);
    var count := ReadOffset(b[i..], offsetMax);
    if count.Some? {
      assert b[i..][32..] == b[i + 32..];
      ReadAccountsAreCounted(b[i + 32..], count.value);
      if count.value == |accounts| {
        AccountsAreReadExactly(b[i + 32..], count.value, accounts);
        AbiAccountsShift(b, i + 32, accounts);
      }
    }
  }

  // The decoder, by the two offsets it finds.
  lemma DecodedFromOffsets(b: Bytes, first: nat, second: nat, c: Content, offsetMax: u64)
    requires WordAt(b, 0, first) && WordAt(b, 32, second) && first <= offsetMax && second <= offsetMax
    ensures ParseAbiBody(b, offsetMax) == Ok(c) <==>
      first <= |b| && second <= |b|
      && ReadAbiBytes(b[first..], offsetMax) == Some(c.payload)
      && ReadAccountsAt(b[second..], offsetMax) == Some(c.accounts)
  {
    OffsetIsWord(b, 0, first, offsetMax);
    OffsetIsWord(b, 32, second, offsetMax);
    assert b[0..] == b;
  }

  lemma DecodedNeedsOffsets(b: Bytes, c: Content, offsetMax: u64) returns (first: nat, second: nat)
    requires ParseAbiBody(b, offsetMax) == Ok(c)
    ensures WordAt(b, 0, first) && WordAt(b, 32, second) && first <= offsetMax && second <= offsetMax
  {
    first, second := ReadOffset(b, offsetMax).value, ReadOffset(b[32..], offsetMax).value;
    assert b[0..] == b;
    OffsetIsWord(b, 0, first, offsetMax);
    OffsetIsWord(b, 32, second, offsetMax);
  }

  // Some two offsets within the machine's addresses say so.
  ghost predicate AbiDecodes(b: Bytes, payload: Bytes, accounts: seq<AccountMeta>, offsetMax: nat) {
    && |payload| <= offsetMax && |accounts| <= offsetMax
    && exists first: nat, second: nat ::
         first <= offsetMax && second <= offsetMax && AbiReads(b, first, second, payload, accounts)
  }

  lemma OffsetsDecide(b: Bytes, first: nat, second: nat, c: Content, offsetMax: u64)
    requires WordAt(b, 0, first) && WordAt(b, 32, second) && first <= offsetMax && second <= offsetMax
    ensures ParseAbiBody(b, offsetMax) == Ok(c) <==>
      && |c.payload| <= offsetMax && |c.accounts| <= offsetMax
      && AbiBytesAt(b, first, c.payload) && AbiArrayAt(b, second, c.accounts)
  {
    DecodedFromOffsets(b, first, second, c, offsetMax);
    if first <= |b| && second <= |b| {
      BytesAreReadExactly(b, first, c.payload, offsetMax);
      ArraysAreReadExactly(b, second, c.accounts, offsetMax);
    }
  }

  lemma DecodedBodiesRead(b: Bytes, c: Content, offsetMax: u64)
    requires ParseAbiBody(b, offsetMax) == Ok(c)
    ensures AbiDecodes(b, c.payload, c.accounts, offsetMax)
  {
    var first, second := DecodedNeedsOffsets(b, c, offsetMax);
    OffsetsDecide(b, first, second, c, offsetMax);
    assert AbiReads(b, first, second, c.payload, c.accounts);
  }

  lemma ReadBodiesDecode(b: Bytes, c: Content, first: nat, second: nat, offsetMax: u64)
    requires first <= offsetMax && second <= offsetMax && AbiReads(b, first, second, c.payload, c.accounts)
    requires |c.payload| <= offsetMax && |c.accounts| <= offsetMax
    ensures ParseAbiBody(b, offsetMax) == Ok(c)
  {
    OffsetsDecide(b, first, second, c, offsetMax);
  }

  /** Whatever wrote it: an ABI body decodes to a payload and its accounts exactly when its two offsets point to their
      encodings. */
  lemma AbiBodiesAreReadExactly(b: Bytes, c: Content, offsetMax: u64)
    ensures ParseAbiBody(b, offsetMax) == Ok(c) <==> AbiDecodes(b, c.payload, c.accounts, offsetMax)
  {
    if AbiDecodes(b, c.payload, c.accounts, offsetMax) {
      var first: nat, second: nat :|
        first <= offsetMax && second <= offsetMax && AbiReads(b, first, second, c.payload, c.accounts);
      ReadBodiesDecode(b, c, first, second, offsetMax);
    } else if ParseAbiBody(b, offsetMax) == Ok(c) {
      DecodedBodiesRead(b, c, offsetMax);
    }
  }

  // ---------- What the encoder writes ----------

  // Scheme byte 1, then the words with the two offsets, and right behind them the two values.
  predicate AbiLaidOut(b: Bytes, payload: Bytes, accounts: seq<AccountMeta>) {
    var padded := |payload| + Filler(|payload|);
    && |b| == 129 + padded + 96 * |accounts| && b[0] == 1
    && WordAt(b, 1, 64) && WordAt(b, 33, 96 + padded)
    && AbiBytesAt(b, 65, payload) && AbiArrayAt(b, 97 + padded, accounts)
  }

  lemma AbiAccountBytes(b: Bytes, a: AccountMeta)
    requires |b| == 96
    ensures b == AbiAccount(a) <==> AbiAccountAt(b, 0, a)
  {
    WordByBytes(b, 32, if a.isSigner then 1 else 0);
    WordByBytes(b, 64, if a.isWritable then 1 else 0);
    var signer, writable := Word(BoolByte(a.isSigner)), Word(BoolByte(a.isWritable));
    ThreeWords(a.pubkey, signer, writable, []);
    assert AbiAccount(a) + [] == AbiAccount(a);
    assert b == b[..32] + (b[32..64] + b[64..96]) && b[0..32] == b[..32];
  }

  lemma {:induction false} AbiAccountsBytes(b: Bytes, accounts: seq<AccountMeta>)
    ensures b == AbiAccounts(accounts) <==> |b| == 96 * |accounts| && AbiAccountsAt(b, 0, accounts)
  {
    AccountsFitTheirBytes(accounts);
    if |accounts| == 0 {
    } else if |b| >= 96 {
      var head, tail, others := b[..96], b[96..], accounts[1..];
      var a, rest := AbiAccount(accounts[0]), AbiAccounts(others);
      assert b == head + tail;
      assert (a + rest)[..96] == a && (a + rest)[96..] == rest;
      AbiAccountBytes(head, accounts[0]);
      AbiAccountAtFront(b, accounts[0]);
      AbiAccountsBytes(tail, others);
      FirstAbiAccount(b, accounts);
    }
  }

  lemma AbiAccountAtFront(b: Bytes, a: AccountMeta)
    requires |b| >= 96
    ensures AbiAccountAt(b[..96], 0, a) <==> AbiAccountAt(b, 0, a)
  {
    assert b[..96][0..32] == b[0..32] && b[..96][32..56] == b[32..56] && b[..96][64..88] == b[64..88];
  }

  lemma HeadParts(b: Bytes, w1: Key32, w2: Key32, rest: Bytes)
    ensures b == [1] + (w1 + (w2 + rest)) <==>
      |b| == 65 + |rest| && b[0] == 1 && b[1..33] == w1 && b[33..65] == w2 && b[65..] == rest
  {
    if |b| == 65 + |rest| && b[0] == 1 {
      assert b == [1] + b[1..] && b[1..] == b[1..33] + b[33..] && b[33..] == b[33..65] + b[65..];
    }
  }

  // The word w is the one that holds this number at position i.
  predicate WordHeldBy(b: Bytes, i: nat, n: nat, w: Bytes)
    requires i + 32 <= |b|
  {
    WordAt(b, i, n) <==> n <= U64_MAX && b[i..i + 32] == w
  }

  lemma WordsAreHeld(b: Bytes, i: nat, n: nat)
    requires i + 32 <= |b|
    ensures WordHeldBy(b, i, n, Word(n))
  {
    WordByBytes(b, i, n);
  }

  lemma SlicesOfSlice(b: Bytes, i: nat, k: nat, m: nat, n: nat)
    requires i <= k <= m <= n <= |b|
    ensures b[i..n][..k - i] == b[i..k] && b[i..n][k - i..][..m - k] == b[k..m] && b[i..n][k - i..][m - k..] == b[m..n]
  {}

  lemma ThreeParts(b: Bytes, i: nat, w: Key32, y: Bytes, z: Bytes)
    requires i + 32 + |y| + |z| <= |b|
    ensures b[i..i + 32 + |y| + |z|] == w + (y + z) <==>
      b[i..i + 32] == w && b[i + 32..i + 32 + |y|] == y && b[i + 32 + |y|..i + 32 + |y| + |z|] == z
  {
    var s := b[i..i + 32 + |y| + |z|];
    SlicesOfSlice(b, i, i + 32, i + 32 + |y|, i + 32 + |y| + |z|);
    InTwo(s, w, y + z);
    InTwo(s[32..], y, z);
  }

  lemma SizeOfPayload(payload: Bytes)
    ensures |AbiBytes(payload)| == 32 + |payload| + Filler(|payload|)
  {
    FillerIsPadding(|payload|);
  }

  lemma PayloadIsLaidOut(b: Bytes, i: nat, payload: Bytes)
    requires i + |AbiBytes(payload)| <= |b| <= U64_MAX
    ensures b[i..i + |AbiBytes(payload)|] == AbiBytes(payload) <==> AbiBytesAt(b, i, payload)
  {
    var n := |payload|;
    var zeros := Zeros(Filler(n));
    FillerIsPadding(n);
    SizeOfPayload(payload);
    WordsAreHeld(b, i, n);
    ThreeParts(b, i, Word(n), payload, zeros);
    var filler := b[i + 32 + n..i + 32 + n + Filler(n)];
    assert filler == zeros <==> AllZero(filler);
  }

  lemma AbiAccountsFrom(b: Bytes, start: nat, accounts: seq<AccountMeta>)
    requires |b| == start + 96 * |accounts|
    ensures b[start..] == AbiAccounts(accounts) <==> AbiAccountsAt(b, start, accounts)
  {
    AbiAccountsShift(b, start, accounts);
    AbiAccountsBytes(b[start..], accounts);
  }

  function AbiArray(accounts: seq<AccountMeta>): Bytes {
    Word(|accounts|) + AbiAccounts(accounts)
  }

  lemma ArrayIsLaidOut(b: Bytes, i: nat, accounts: seq<AccountMeta>)
    requires |b| == i + |AbiArray(accounts)| <= U64_MAX
    ensures b[i..] == AbiArray(accounts) <==> AbiArrayAt(b, i, accounts)
  {
    AccountsFitTheirBytes(accounts);
    WordsAreHeld(b, i, |accounts|);
    TwoParts(b, i, Word(|accounts|), AbiAccounts(accounts));
    AbiAccountsFrom(b, i + 32, accounts);
  }

  // Two parts of which each is in place exactly when something holds.
  lemma InParts(b: Bytes, i: nat, x: Bytes, rest: Bytes, p: bool, q: bool)
    requires i + |x| + |rest| == |b|
    requires (b[i..i + |x|] == x <==> p) && (b[i + |x|..] == rest <==> q)
    ensures b[i..] == x + rest <==> p && q
  {
    TwoParts(b, i, x, rest);
  }

  lemma ValuesAreLaidOut(b: Bytes, i: nat, payload: Bytes, accounts: seq<AccountMeta>)
    requires |b| == i + |AbiBytes(payload)| + |AbiArray(accounts)| <= U64_MAX
    ensures b[i..] == AbiBytes(payload) + AbiArray(accounts) <==>
      AbiBytesAt(b, i, payload) && AbiArrayAt(b, i + |AbiBytes(payload)|, accounts)
  {
    hide WordAt, AbiBytesAt, AbiArrayAt;
    PayloadIsLaidOut(b, i, payload);
    ArrayIsLaidOut(b, i + |AbiBytes(payload)|, accounts);
    InParts(b, i, AbiBytes(payload), AbiArray(accounts), AbiBytesAt(b, i, payload),
            AbiArrayAt(b, i + |AbiBytes(payload)|, accounts));
  }

  lemma HeadIsLaidOut(b: Bytes, first: u64, second: u64, rest: Bytes)
    requires |b| == 65 + |rest|
    ensures b == [1] + (Word(first) + (Word(second) + rest)) <==>
      b[0] == 1 && WordAt(b, 1, first) && WordAt(b, 33, second) && b[65..] == rest
  {
    HeadParts(b, Word(first), Word(second), rest);
    WordsAreHeld(b, 1, first);
    WordsAreHeld(b, 33, second);
  }

  lemma AbiPartsAreLaidOut(b: Bytes, payload: Bytes, accounts: seq<AccountMeta>, first: u64, second: u64)
    requires |b| == 65 + |AbiBytes(payload)| + |AbiArray(accounts)| <= U64_MAX
    ensures b == [1] + (Word(first) + (Word(second) + (AbiBytes(payload) + AbiArray(accounts)))) <==>
      && b[0] == 1 && WordAt(b, 1, first) && WordAt(b, 33, second)
      && AbiBytesAt(b, 65, payload) && AbiArrayAt(b, 65 + |AbiBytes(payload)|, accounts)
  {
    hide WordAt, AbiBytesAt, AbiArrayAt;
    HeadIsLaidOut(b, first, second, AbiBytes(payload) + AbiArray(accounts));
    ValuesAreLaidOut(b, 65, payload, accounts);
  }

  lemma SizeOfArray(accounts: seq<AccountMeta>)
    ensures |AbiArray(accounts)| == 32 + 96 * |accounts|
  {
    AccountsFitTheirBytes(accounts);
  }

  // The body with its two offsets as parameters.
  lemma AbiBodyParts(c: Content, first: nat, second: nat)
    requires first == 64 && second == 64 + |AbiBytes(c.payload)|
    ensures AbiBody(c) == Word(first) + (Word(second) + (AbiBytes(c.payload) + AbiArray(c.accounts)))
  {}

  lemma LayoutByOffsets(b: Bytes, c: Content, first: u64, second: u64)
    requires first == 64 && second == 64 + |AbiBytes(c.payload)|
    requires |b| == 65 + |AbiBytes(c.payload)| + |AbiArray(c.accounts)|
    ensures AbiLaidOut(b, c.payload, c.accounts) <==>
      && b[0] == 1 && WordAt(b, 1, first) && WordAt(b, 33, second)
      && AbiBytesAt(b, 65, c.payload) && AbiArrayAt(b, 65 + |AbiBytes(c.payload)|, c.accounts)
  {
    hide WordAt, AbiBytesAt, AbiArrayAt;
    SizeOfPayload(c.payload);
    SizeOfArray(c.accounts);
  }

  lemma LayoutsHaveTheSize(b: Bytes, c: Content)
    ensures AbiLaidOut(b, c.payload, c.accounts) || b == [1] + AbiBody(c) ==>
      |b| == 65 + |AbiBytes(c.payload)| + |AbiArray(c.accounts)|
  {
    SizeOfPayload(c.payload);
    SizeOfArray(c.accounts);
  }

  lemma AbiEncodingIsLaidOut(b: Bytes, c: Content, first: u64, second: u64)
    requires first == 64 && second == 64 + |AbiBytes(c.payload)| && |b| <= U64_MAX
    ensures AbiLaidOut(b, c.payload, c.accounts) <==> b == [1] + AbiBody(c)
  {
    hide WordAt, AbiBytesAt, AbiArrayAt;
    LayoutsHaveTheSize(b, c);
    if |b| == 65 + |AbiBytes(c.payload)| + |AbiArray(c.accounts)| {
      AbiBodyParts(c, first, second);
      LayoutByOffsets(b, c, first, second);
      AbiPartsAreLaidOut(b, c.payload, c.accounts, first, second);
    }
  }

  /** An ABI payload encodes to exactly the bytes with this layout, as far as a machine can address them; and it decodes
      from every body whose offsets point to it, not from the written layout alone. */
  lemma AbiLayoutIsExact(b: Bytes, p: AxelarMessagePayload, offsetMax: u64)
    requires p.encodingScheme == AbiEncoding
    ensures |b| <= U64_MAX ==>
      (Encode(p) == Ok(b) <==> AbiLaidOut(b, p.payloadWithoutAccounts, p.solanaAccounts))
    ensures Decode(b, offsetMax) == Ok(p) <==>
      |b| > 0 && b[0] == 1 && AbiDecodes(b[1..], p.payloadWithoutAccounts, p.solanaAccounts, offsetMax)
  {
    EncodesToLayout(b, p);
    if |b| > 0 {
      AbiBodiesAreReadExactly(b[1..], ContentOf(p), offsetMax);
    }
  }

  lemma EncodesToLayout(b: Bytes, p: AxelarMessagePayload)
    requires p.encodingScheme == AbiEncoding
    ensures |b| <= U64_MAX ==>
      (Encode(p) == Ok(b) <==> AbiLaidOut(b, p.payloadWithoutAccounts, p.solanaAccounts))
  {
    var c := ContentOf(p);
    SizeOfPayload(c.payload);
    SizeOfArray(c.accounts);
    var second := 64 + |AbiBytes(c.payload)|;
    if |b| <= U64_MAX && second <= U64_MAX {
      AbiEncodingIsLaidOut(b, c, 64, second);
    }
    AbiBodyParts(c, 64, second);
  }

  /** The first byte decides the scheme: 0 for Borsh, 1 for the ABI encoding, and nothing else decodes. */
  lemma FirstByteIsTheScheme(b: Bytes, offsetMax: u64)
    ensures Decode(b, offsetMax) == Err(InvalidEncodingScheme) <==> b == [] || b[0] > 1
    ensures Decode(b, offsetMax).Ok? ==>
      b != [] && b[0] == (if Decode(b, offsetMax).value.encodingScheme == Borsh then 0 else 1)
  {}
}
