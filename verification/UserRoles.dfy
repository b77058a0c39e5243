// Role masks of the token service: one byte per user and resource, which stands for a set of roles.
module UserRoles {

  const MINTER: bv8 := 1
  const OPERATOR: bv8 := 2
  const FLOW_LIMITER: bv8 := 4
  const EMPTY: bv8 := 0

  datatype Role = Minter | Operator | FlowLimiter

  function Bit(role: Role): bv8 {
    match role
    case Minter => MINTER
    case Operator => OPERATOR
    case FlowLimiter => FLOW_LIMITER
  }

  predicate Contains(mask: bv8, roles: bv8) {
    mask & roles == roles
  }

  function Insert(mask: bv8, roles: bv8): bv8 {
    mask | roles
  }

  function Remove(mask: bv8, roles: bv8): bv8 {
    mask & !roles
  }

  // The set a mask stands for.
  function RolesOf(mask: bv8): set<Role> {
    set role: Role | Contains(mask, Bit(role))
  }

  // No bit beyond the three roles is set.
  predicate OnlyRoles(mask: bv8) {
    mask & !(MINTER | OPERATOR | FLOW_LIMITER) == 0
  }

  lemma RoleBitsAreIndependent(mask: bv8, bits: bv8, role: Role)
    ensures Contains(Insert(mask, bits), Bit(role)) <==> Contains(mask, Bit(role)) || Contains(bits, Bit(role))
    ensures Contains(Remove(mask, bits), Bit(role)) <==> Contains(mask, Bit(role)) && !Contains(bits, Bit(role))
  {
    OneBit(mask, bits, Bit(role));
  }

  lemma OneBit(mask: bv8, bits: bv8, b: bv8)
    requires b == MINTER || b == OPERATOR || b == FLOW_LIMITER
    ensures (mask | bits) & b == b <==> mask & b == b || bits & b == b
    ensures (mask & !bits) & b == b <==> mask & b == b && bits & b != b
  {}

  /** Mask operations are set operations: inserting is union, removing is difference, containing is inclusion, and a
      mask of known roles is zero exactly when no role is left. */
  lemma MasksAreSets(mask: bv8, roles: bv8)
    ensures RolesOf(Insert(mask, roles)) == RolesOf(mask) + RolesOf(roles)
    ensures RolesOf(Remove(mask, roles)) == RolesOf(mask) - RolesOf(roles)
    ensures OnlyRoles(roles) ==> (Contains(mask, roles) <==> RolesOf(roles) <= RolesOf(mask))
    ensures OnlyRoles(mask) ==> (mask == EMPTY <==> RolesOf(mask) == {})
  {
    forall role
      ensures role in RolesOf(Insert(mask, roles)) <==> role in RolesOf(mask) || role in RolesOf(roles)
      ensures role in RolesOf(Remove(mask, roles)) <==> role in RolesOf(mask) && role !in RolesOf(roles)
    {
      RoleBitsAreIndependent(mask, roles, role);
    }
    if OnlyRoles(roles) {
      InclusionIsBitwise(mask, roles);
    }
    if OnlyRoles(mask) {
      InclusionIsBitwise(EMPTY, mask);
      assert RolesOf(EMPTY) == {};
    }
  }

  lemma InclusionIsBitwise(mask: bv8, roles: bv8)
    requires OnlyRoles(roles)
    ensures Contains(mask, roles) <==> RolesOf(roles) <= RolesOf(mask)
  {
    if RolesOf(roles) <= RolesOf(mask) {
      assert forall role: Role :: Contains(roles, Bit(role)) ==> role in RolesOf(roles);
      assert Contains(roles, Bit(Minter)) ==> Contains(mask, Bit(Minter));
      assert Contains(roles, Bit(Operator)) ==> Contains(mask, Bit(Operator));
      assert Contains(roles, Bit(FlowLimiter)) ==> Contains(mask, Bit(FlowLimiter));
      EveryBit(mask, roles);
    } else {
      var role :| role in RolesOf(roles) && role !in RolesOf(mask);
      MissingBit(mask, roles, Bit(role));
    }
  }

  lemma EveryBit(mask: bv8, roles: bv8)
    requires roles & !(1 | 2 | 4) == 0
    requires roles & 1 == 1 ==> mask & 1 == 1
    requires roles & 2 == 2 ==> mask & 2 == 2
    requires roles & 4 == 4 ==> mask & 4 == 4
    ensures mask & roles == roles
  {}

  lemma MissingBit(mask: bv8, roles: bv8, b: bv8)
    requires roles & b == b && mask & b != b
    ensures mask & roles != roles
  {}

  // The roles account of one user on one resource.
  class UserRolesAccount {
    var roles: bv8

    constructor (mask: bv8)
      ensures roles == mask
    {
      roles := mask;
    }

    predicate HasRoles()
      reads this
    {
      roles != EMPTY
    }

    method Has(role: Role) returns (has: bool)
      ensures has <==> Contains(roles, Bit(role))
    {
      has := roles & Bit(role) == Bit(role);
    }

    method Add(role: Role)
      modifies this
      ensures roles == Insert(old(roles), Bit(role))
    {
      roles := roles | Bit(role);
    }

    method Drop(role: Role)
      modifies this
      ensures roles == Remove(old(roles), Bit(role))
    {
      roles := roles & !Bit(role);
    }
  }

  lemma OneRolePerBit(role: Role)
    ensures RolesOf(Bit(role)) == {role}
  {
    forall other: Role
      ensures Contains(Bit(role), Bit(other)) <==> other == role
    {
      match role
      case Minter => assert other == Minter || MINTER & Bit(other) == 0;
      case Operator => assert other == Operator || OPERATOR & Bit(other) == 0;
      case FlowLimiter => assert other == FlowLimiter || FLOW_LIMITER & Bit(other) == 0;
    }
  }

  /** Which bit stands for which role. */
  lemma BitsOfRoles(mask: bv8)
    ensures Minter in RolesOf(mask) <==> mask & 1 == 1
    ensures Operator in RolesOf(mask) <==> mask & 2 == 2
    ensures FlowLimiter in RolesOf(mask) <==> mask & 4 == 4
  {}
}
