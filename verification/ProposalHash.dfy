// The bytes a governance proposal is hashed from, and why they determine the proposal although the call data among
// them carries no length.
module ProposalHash {
  import opened Prelude
  import opened Bytes

  datatype CallData = CallData(
    solanaAccounts: seq<AccountMeta>, solanaNativeValueReceiverAccount: Option<AccountMeta>, callData: Bytes)

  datatype ExecuteProposalData = ExecuteProposalData(targetAddress: Key32, callData: CallData, nativeValue: Key32)

  // ---------- Borsh of the parts ----------

  const ACCOUNT_SIZE: nat := 34

  function AccountBytes(a: AccountMeta): (b: Bytes)
    ensures |b| == ACCOUNT_SIZE
  {
    a.pubkey + [BoolByte(a.isSigner), BoolByte(a.isWritable)]
  }

  function AccountListBytes(accounts: seq<AccountMeta>): Bytes {
    if |accounts| == 0 then [] else AccountBytes(accounts[0]) + AccountListBytes(accounts[1..])
  }

  function ReceiverBytes(receiver: Option<AccountMeta>): Bytes {
    match receiver
    case None => [0]
    case Some(a) => [1] + AccountBytes(a)
  }

  // Everything after the list of accounts.
  function RestBytes(d: ExecuteProposalData): Bytes {
    ReceiverBytes(d.callData.solanaNativeValueReceiverAccount) + (d.callData.callData + d.nativeValue)
  }

  // The hashed bytes; a list too long for Borsh makes the program panic instead.
  function Preimage(d: ExecuteProposalData): Option<Bytes> {
    var accounts := d.callData.solanaAccounts;
    if |accounts| > U32_MAX then None
    else Some(d.targetAddress + (Length32(|accounts|) + (AccountListBytes(accounts) + RestBytes(d))))
  }

  // ---------- Reading them back ----------

  function ReadAccount(b: Bytes): Option<AccountMeta>
    requires |b| == ACCOUNT_SIZE
  {
    if b[32] > 1 || b[33] > 1 then None else Some(AccountMeta(b[..32], b[32] == 1, b[33] == 1))
  }

  // The accounts at the front, and the bytes behind them.
  function ReadAccounts(b: Bytes, count: nat): Option<(seq<AccountMeta>, Bytes)>
    decreases count
  {
    if count == 0 then Some(([], b))
    else if |b| < ACCOUNT_SIZE then None
    else
      match (ReadAccount(b[..ACCOUNT_SIZE]), ReadAccounts(b[ACCOUNT_SIZE..], count - 1))
      case (Some(a), Some((others, rest))) => Some(([a] + others, rest))
      case _ => None
  }

  function ReadReceiver(b: Bytes): Option<(Option<AccountMeta>, Bytes)> {
    if b == [] then None
    else if b[0] == 0 then Some((None, b[1..]))
    else if b[0] == 1 && |b| > ACCOUNT_SIZE && ReadAccount(b[1..ACCOUNT_SIZE + 1]).Some? then
      Some((ReadAccount(b[1..ACCOUNT_SIZE + 1]), b[ACCOUNT_SIZE + 1..]))
    else None
  }

  function ReadRest(target: Key32, accounts: seq<AccountMeta>, b: Bytes): Option<ExecuteProposalData> {
    match ReadReceiver(b)
    case None => None
    case Some((receiver, tail)) =>
      if |tail| < 32 then None
      else Some(ExecuteProposalData(target, CallData(accounts, receiver, tail[..|tail| - 32]), tail[|tail| - 32..]))
  }

  function Parse(b: Bytes): Option<ExecuteProposalData> {
    if |b| < 36 then None
    else
      match ReadAccounts(b[32..][4..], FromLittleEndian(b[32..][..4]))
      case None => None
      case Some((accounts, rest)) => ReadRest(b[..32], accounts, rest)
  }

  // ---------- Reading undoes writing, and writing undoes reading ----------

  lemma AccountsAndBytesCorrespond(a: AccountMeta, b: Bytes)
    requires |b| == ACCOUNT_SIZE
    ensures ReadAccount(b) == Some(a) <==> AccountBytes(a) == b
  {
    if ReadAccount(b) == Some(a) {
      assert b == b[..32] + [b[32], b[33]];
    }
  }

  lemma {:induction false} WrittenAccountsAreRead(accounts: seq<AccountMeta>, rest: Bytes)
    ensures ReadAccounts(AccountListBytes(accounts) + rest, |accounts|) == Some((accounts, rest))
  {
    var b := AccountListBytes(accounts) + rest;
    if |accounts| == 0 {
      assert b == rest;
    } else {
      var a, others := accounts[0], accounts[1..];
      assert b == AccountBytes(a) + (AccountListBytes(others) + rest);
      assert b[..ACCOUNT_SIZE] == AccountBytes(a) && b[ACCOUNT_SIZE..] == AccountListBytes(others) + rest;
      AccountsAndBytesCorrespond(a, b[..ACCOUNT_SIZE]);
      WrittenAccountsAreRead(others, rest);
      assert accounts == [a] + others;
    }
  }

  lemma {:induction false} ReadAccountsAreWritten(b: Bytes, count: nat)
    requires ReadAccounts(b, count).Some?
    ensures var (accounts, rest) := ReadAccounts(b, count).value;
      |accounts| == count && AccountListBytes(accounts) + rest == b
  {
    var (accounts, rest) := ReadAccounts(b, count).value;
    if count == 0 {
    } else {
      var a := ReadAccount(b[..ACCOUNT_SIZE]).value;
      var (others, _) := ReadAccounts(b[ACCOUNT_SIZE..], count - 1).value;
      ReadAccountsAreWritten(b[ACCOUNT_SIZE..], count - 1);
      AccountsAndBytesCorrespond(a, b[..ACCOUNT_SIZE]);
      assert accounts[1..] == others;
      assert AccountListBytes(accounts) + rest == AccountBytes(a) + (AccountListBytes(others) + rest);
      assert b == b[..ACCOUNT_SIZE] + b[ACCOUNT_SIZE..];
    }
  }

  lemma WrittenReceiverIsRead(receiver: Option<AccountMeta>, tail: Bytes)
    ensures ReadReceiver(ReceiverBytes(receiver) + tail) == Some((receiver, tail))
  {
    if receiver.Some? {
      var a, b := receiver.value, ReceiverBytes(receiver) + tail;
      assert b[1..ACCOUNT_SIZE + 1] == AccountBytes(a);
      AccountsAndBytesCorrespond(a, AccountBytes(a));
    }
  }

  lemma ReadReceiverIsWritten(b: Bytes)
    requires ReadReceiver(b).Some?
    ensures var (receiver, tail) := ReadReceiver(b).value; ReceiverBytes(receiver) + tail == b
  {
    if b[0] == 1 {
      var a := ReadAccount(b[1..ACCOUNT_SIZE + 1]).value;
      AccountsAndBytesCorrespond(a, b[1..ACCOUNT_SIZE + 1]);
      assert b == [b[0]] + b[1..ACCOUNT_SIZE + 1] + b[ACCOUNT_SIZE + 1..];
    } else {
      assert b == [b[0]] + b[1..];
    }
  }

  lemma WrittenRestIsRead(d: ExecuteProposalData)
    ensures ReadRest(d.targetAddress, d.callData.solanaAccounts, RestBytes(d)) == Some(d)
  {
    var tail := d.callData.callData + d.nativeValue;
    WrittenReceiverIsRead(d.callData.solanaNativeValueReceiverAccount, tail);
    assert tail[..|tail| - 32] == d.callData.callData && tail[|tail| - 32..] == d.nativeValue;
  }

  lemma ReadRestIsWritten(target: Key32, accounts: seq<AccountMeta>, b: Bytes)
    requires ReadRest(target, accounts, b).Some?
    ensures RestBytes(ReadRest(target, accounts, b).value) == b
  {
    var tail := ReadReceiver(b).value.1;
    ReadReceiverIsWritten(b);
    assert tail[..|tail| - 32] + tail[|tail| - 32..] == tail;
  }

  lemma WrittenProposalIsRead(d: ExecuteProposalData)
    requires Preimage(d).Some?
    ensures Parse(Preimage(d).value) == Some(d)
  {
    var b, accounts := Preimage(d).value, d.callData.solanaAccounts;
    var list := AccountListBytes(accounts) + RestBytes(d);
    assert b[..32] == d.targetAddress && b[32..] == Length32(|accounts|) + list;
    Length32RoundTrip(|accounts|, list);
    WrittenAccountsAreRead(accounts, RestBytes(d));
    WrittenRestIsRead(d);
  }

  lemma ReadProposalIsWritten(b: Bytes)
    requires Parse(b).Some?
    ensures Preimage(Parse(b).value) == Some(b)
  {
    var d := Parse(b).value;
    var (accounts, rest) := ReadAccounts(b[32..][4..], FromLittleEndian(b[32..][..4])).value;
    ReadRestIsWritten(b[..32], accounts, rest);
    ReadAccountsAreWritten(b[32..][4..], FromLittleEndian(b[32..][..4]));
    Length32IsCanonical(b[32..]);
    assert b == b[..32] + b[32..];
  }

  /** The hashed bytes of a proposal parse back to it and to nothing else: the list and the receiver end where their
      own contents say, the value takes the last 32 bytes, and the call data is exactly what lies between. */
  lemma PreimagesParseUniquely(d: ExecuteProposalData, b: Bytes)
    ensures Preimage(d) == Some(b) <==> Parse(b) == Some(d)
  {
    if Preimage(d) == Some(b) {
      WrittenProposalIsRead(d);
    }
    if Parse(b) == Some(d) {
      ReadProposalIsWritten(b);
    }
  }

  /** Distinct proposals are hashed from distinct bytes. */
  lemma DistinctProposalsHaveDistinctPreimages(d: ExecuteProposalData, e: ExecuteProposalData)
    requires Preimage(d).Some? && Preimage(d) == Preimage(e)
    ensures d == e
  {
    PreimagesParseUniquely(d, Preimage(d).value);
    PreimagesParseUniquely(e, Preimage(d).value);
  }
}
