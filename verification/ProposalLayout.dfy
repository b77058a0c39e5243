// Where every byte of a hashed proposal is, in numbers.
module ProposalLayout {
  import opened Prelude
  import opened Bytes
  import opened ProposalHash

  // 34 bytes from position i on: the key, one byte for a signer, one for a writable account.
  predicate AccountAt(b: Bytes, i: nat, a: AccountMeta) {
    && i + 34 <= |b| && b[i..i + 32] == a.pubkey
    && b[i + 32] == (if a.isSigner then 1 else 0) && b[i + 33] == (if a.isWritable then 1 else 0)
  }

  // The accounts one after the other, from that position on.
  predicate AccountsAt(b: Bytes, start: nat, accounts: seq<AccountMeta>) {
    forall i :: 0 <= i < |accounts| ==> AccountAt(b, start + 34 * i, accounts[i])
  }

  // A zero, or a one and the account.
  predicate ReceiverAt(b: Bytes, i: nat, receiver: Option<AccountMeta>) {
    match receiver
    case None => i < |b| && b[i] == 0
    case Some(a) => i < |b| && b[i] == 1 && AccountAt(b, i + 1, a)
  }

  // Target, number of accounts, accounts, receiver, call data, native value.
  predicate ProposalLaidOut(b: Bytes, d: ExecuteProposalData) {
    var receiver := 36 + 34 * |d.callData.solanaAccounts|;
    var data := receiver + (if d.callData.solanaNativeValueReceiverAccount.Some? then 35 else 1);
    && |b| == data + |d.callData.callData| + 32
    && b[..32] == d.targetAddress && Le32At(b, 32, |d.callData.solanaAccounts|)
    && AccountsAt(b, 36, d.callData.solanaAccounts)
    && ReceiverAt(b, receiver, d.callData.solanaNativeValueReceiverAccount)
    && b[data..data + |d.callData.callData|] == d.callData.callData
    && b[data + |d.callData.callData|..] == d.nativeValue
  }

  lemma AccountIsLaidOut(b: Bytes, i: nat, a: AccountMeta)
    requires i + 34 <= |b|
    ensures b[i..i + 34] == AccountBytes(a) <==> AccountAt(b, i, a)
  {
    assert b[i..i + 34] == b[i..i + 32] + [b[i + 32], b[i + 33]];
    assert b[i..i + 34][..32] == b[i..i + 32];
    assert AccountBytes(a)[..32] == a.pubkey;
  }

  lemma {:induction false} SizeOfAccounts(accounts: seq<AccountMeta>)
    ensures |AccountListBytes(accounts)| == 34 * |accounts|
  {
    if |accounts| == 0 {
    } else {
      SizeOfAccounts(accounts[1..]);
    }
  }

  lemma FirstAccount(b: Bytes, start: nat, accounts: seq<AccountMeta>)
    requires |accounts| > 0
    ensures AccountsAt(b, start, accounts) <==>
      AccountAt(b, start, accounts[0]) && AccountsAt(b, start + 34, accounts[1..])
  {
    if AccountsAt(b, start, accounts) {
      assert AccountAt(b, start + 34 * 0, accounts[0]);
      forall i | 0 <= i < |accounts| - 1
        ensures AccountAt(b, start + 34 + 34 * i, accounts[1..][i])
      {
        assert AccountAt(b, start + 34 * (i + 1), accounts[i + 1]);
      }
    }
    if AccountAt(b, start, accounts[0]) && AccountsAt(b, start + 34, accounts[1..]) {
      forall i | 0 < i < |accounts|
        ensures AccountAt(b, start + 34 * i, accounts[i])
      {
        assert AccountAt(b, start + 34 + 34 * (i - 1), accounts[1..][i - 1]);
      }
    }
  }

  lemma {:induction false} AccountsAreLaidOut(b: Bytes, i: nat, accounts: seq<AccountMeta>)
    requires i + 34 * |accounts| <= |b|
    ensures b[i..i + 34 * |accounts|] == AccountListBytes(accounts) <==> AccountsAt(b, i, accounts)
    decreases |accounts|
  {
    if |accounts| == 0 {
    } else {
      var others, end := accounts[1..], i + 34 * |accounts|;
      SizeOfAccounts(others);
      AccountIsLaidOut(b, i, accounts[0]);
      AccountsAreLaidOut(b, i + 34, others);
      FirstAccount(b, i, accounts);
      InTwo(b[i..end], AccountBytes(accounts[0]), AccountListBytes(others));
      assert b[i..end][..34] == b[i..i + 34] && b[i..end][34..] == b[i + 34..end];
    }
  }

  lemma ReceiverIsLaidOut(b: Bytes, i: nat, receiver: Option<AccountMeta>)
    requires i + |ReceiverBytes(receiver)| <= |b|
    ensures b[i..i + |ReceiverBytes(receiver)|] == ReceiverBytes(receiver) <==> ReceiverAt(b, i, receiver)
  {
    match receiver
    case None => assert b[i..i + 1] == [b[i]];
    case Some(a) =>
      AccountIsLaidOut(b, i + 1, a);
      InTwo(b[i..i + 35], [1], AccountBytes(a));
      assert b[i..i + 35][..1] == [b[i]] && b[i..i + 35][1..] == b[i + 1..i + 35];
  }

  lemma LastParts(b: Bytes, i: nat, d: ExecuteProposalData)
    requires |b| == i + |RestBytes(d)|
    ensures var receiver, data := d.callData.solanaNativeValueReceiverAccount, d.callData.callData;
      var start := i + |ReceiverBytes(receiver)|;
      b[i..] == RestBytes(d) <==>
        && ReceiverAt(b, i, receiver)
        && b[start..start + |data|] == data && b[start + |data|..] == d.nativeValue
  {
    hide ReceiverAt, ReceiverBytes;
    var receiver, data := d.callData.solanaNativeValueReceiverAccount, d.callData.callData;
    ReceiverIsLaidOut(b, i, receiver);
    TwoParts(b, i, ReceiverBytes(receiver), data + d.nativeValue);
    TwoParts(b, i + |ReceiverBytes(receiver)|, data, d.nativeValue);
  }

  lemma FirstParts(b: Bytes, target: Key32, accounts: seq<AccountMeta>, rest: Bytes)
    requires |accounts| <= U32_MAX && |b| == 36 + 34 * |accounts| + |rest|
    ensures b == target + (Length32(|accounts|) + (AccountListBytes(accounts) + rest)) <==>
      && b[..32] == target && Le32At(b, 32, |accounts|) && AccountsAt(b, 36, accounts)
      && b[36 + 34 * |accounts|..] == rest
  {
    hide Le32At, AccountsAt, Length32;
    var list := AccountListBytes(accounts);
    SizeOfAccounts(accounts);
    Length32ByBytes(b, 32, |accounts|);
    AccountsAreLaidOut(b, 36, accounts);
    InTwo(b, target, Length32(|accounts|) + (list + rest));
    TwoParts(b, 32, Length32(|accounts|), list + rest);
    TwoParts(b, 36, list, rest);
  }

  lemma SizeOfRest(d: ExecuteProposalData)
    ensures |ReceiverBytes(d.callData.solanaNativeValueReceiverAccount)|
      == if d.callData.solanaNativeValueReceiverAccount.Some? then 35 else 1
    ensures |RestBytes(d)|
      == |ReceiverBytes(d.callData.solanaNativeValueReceiverAccount)| + |d.callData.callData| + 32
  {}

  lemma LayoutsFitALength(b: Bytes, i: nat, n: nat)
    ensures Le32At(b, i, n) ==> n <= U32_MAX
  {}

  /** A proposal is hashed from exactly the bytes with this layout. */
  lemma ProposalLayoutIsExact(b: Bytes, d: ExecuteProposalData)
    ensures Preimage(d) == Some(b) <==> ProposalLaidOut(b, d)
  {
    hide Le32At, AccountsAt, ReceiverAt, Length32, AccountListBytes, RestBytes, ReceiverBytes;
    var accounts := d.callData.solanaAccounts;
    SizeOfAccounts(accounts);
    SizeOfRest(d);
    LayoutsFitALength(b, 32, |accounts|);
    if |accounts| <= U32_MAX && |b| == 36 + 34 * |accounts| + |RestBytes(d)| {
      FirstParts(b, d.targetAddress, accounts, RestBytes(d));
      LastParts(b, 36 + 34 * |accounts|, d);
    }
  }
}
