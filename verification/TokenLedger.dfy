// The token ledger the token service moves tokens on: mints, who holds their units, and fees kept back on transfers.
//
// The token programs are not part of this model. What is assumed of them: a transfer moves what is asked, less a fee
// of at most that amount which stays withheld; minting and burning change the supply; supplies fit 64 bits.
module TokenLedger {
  import opened Prelude
  import AxelarStd

  type Pubkey = AxelarStd.Pubkey
  type TokenId = AxelarStd.Bytes32

  // Accounts that can own tokens. The last two are derived addresses: no key exists for them, and only the program
  // and the token service, respectively, can sign for them.
  datatype Address =
    Wallet(key: Pubkey) | Program(key: Pubkey) | TokenAuthority(program: Pubkey) | TokenManagerPda(tokenId: TokenId)

  datatype LedgerError = InsufficientFunds | SupplyOverflow | FeeAboveAmount

  // The holdings contain each owner once per unit he holds.
  datatype Mint = Mint(hasTransferFee: bool, authority: Option<Address>, supply: u64, holdings: multiset<Address>,
      withheld: nat)
  {
    ghost predicate Backed() {
      |holdings| + withheld == supply
    }
  }

  // What reaches the receiver of a transfer. A transfer to oneself moves nothing and pays no fee.
  function Arriving(m: Mint, from: Address, to: Address, amount: nat, fee: nat): nat
    requires m.hasTransferFee ==> fee <= amount
  {
    if from == to || !m.hasTransferFee then amount else amount - fee
  }

  function Moved(m: Mint, from: Address, to: Address, amount: nat, fee: nat): Result<Mint, LedgerError> {
    if m.hasTransferFee && fee > amount then Err(FeeAboveAmount)
    else if m.holdings[from] < amount then Err(InsufficientFunds)
    else
      var arriving := Arriving(m, from, to, amount, fee);
      var left := m.holdings[from := m.holdings[from] - amount];
      Ok(m.(holdings := left[to := left[to] + arriving], withheld := m.withheld + (amount - arriving)))
  }

  function Minted(m: Mint, to: Address, amount: nat): Result<Mint, LedgerError> {
    if m.supply + amount > U64_MAX then Err(SupplyOverflow)
    else Ok(m.(supply := m.supply + amount, holdings := m.holdings[to := m.holdings[to] + amount]))
  }

  function Burned(m: Mint, from: Address, amount: nat): Result<Mint, LedgerError> {
    if m.holdings[from] < amount || m.supply < amount then Err(InsufficientFunds)
    else Ok(m.(supply := m.supply - amount, holdings := m.holdings[from := m.holdings[from] - amount]))
  }

  // The fees withheld so far are paid out.
  function FeesPaidOut(m: Mint, to: Address): Mint {
    m.(holdings := m.holdings[to := m.holdings[to] + m.withheld], withheld := 0)
  }

  lemma TransfersKeepTheSupplyBacked(m: Mint, from: Address, to: Address, amount: nat, fee: nat)
    requires m.Backed()
    ensures Moved(m, from, to, amount, fee).Ok? ==>
      Moved(m, from, to, amount, fee).value.Backed() && Moved(m, from, to, amount, fee).value.supply == m.supply
    ensures Minted(m, to, amount).Ok? ==> Minted(m, to, amount).value.Backed()
    ensures Burned(m, from, amount).Ok? ==> Burned(m, from, amount).value.Backed()
    ensures FeesPaidOut(m, to).Backed()
  {
    if Moved(m, from, to, amount, fee).Ok? {
      var left := m.holdings[from := m.holdings[from] - amount];
      assert |left| == |m.holdings| - amount;
    }
  }

  // ---------- Account by account ----------

  // Every account after: the source is down by the amount, the target up by what arrives, and no other one changes.
  ghost predicate Shifted(m: Mint, after: Mint, from: Option<Address>, amount: nat, to: Option<Address>,
      arriving: int) {
    && after.hasTransferFee == m.hasTransferFee && after.authority == m.authority
    && forall a :: after.holdings[a] ==
         m.holdings[a] - (if from == Some(a) then amount else 0) + (if to == Some(a) then arriving else 0)
  }

  lemma MovingShifts(m: Mint, from: Address, to: Address, amount: nat, fee: nat)
    ensures Moved(m, from, to, amount, fee).Ok? <==> m.holdings[from] >= amount && (m.hasTransferFee ==> fee <= amount)
    ensures Moved(m, from, to, amount, fee).Ok? ==>
      var after, arriving := Moved(m, from, to, amount, fee).value, Arriving(m, from, to, amount, fee);
      && Shifted(m, after, Some(from), amount, Some(to), arriving)
      && after.supply == m.supply && after.withheld == m.withheld + (amount - arriving)
  {}

  lemma MintingShifts(m: Mint, to: Address, amount: nat)
    ensures Minted(m, to, amount).Ok? <==> m.supply + amount <= U64_MAX
    ensures Minted(m, to, amount).Ok? ==>
      var after := Minted(m, to, amount).value;
      && Shifted(m, after, None, 0, Some(to), amount)
      && after.supply == m.supply + amount && after.withheld == m.withheld
  {}

  lemma BurningShifts(m: Mint, from: Address, amount: nat)
    ensures Burned(m, from, amount).Ok? <==> m.holdings[from] >= amount && m.supply >= amount
    ensures Burned(m, from, amount).Ok? ==>
      var after := Burned(m, from, amount).value;
      && Shifted(m, after, Some(from), amount, None, 0)
      && after.supply == m.supply - amount && after.withheld == m.withheld
  {}
}
