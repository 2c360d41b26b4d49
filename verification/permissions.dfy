/** The permission bit flags and the mask check. JavaScript's `&` converts both operands
    to 32-bit two's-complement integers (ToInt32) and yields a signed 32-bit result; an
    operand is represented here by its 32-bit pattern after that conversion, so -1 is
    0xFFFF_FFFF. */
module Permissions {
  type Bits = bv32

  /** A 32-bit pattern read as a signed integer is greater than zero. */
  predicate PositiveInt32(x: Bits) {
    x != 0 && x & 0x8000_0000 == 0
  }

  datatype Permission =
    | WithoutPermissions
    | ReadRegisters | ReadAllRegisters | CreateRegisters | UpdateRegisters | UpdateAllRegisters
    | DeleteRegisters | DeleteAllRegisters
    | ReadSpokespersons | ReadAllSpokespersons | CreateSpokespersons | UpdateSpokespersons
    | UpdateAllSpokespersons | DeleteSpokespersons | DeleteAllSpokespersons
    | ReadReports | ExportReports
    | ReadUsers | CreateUsers | UpdateUsers | DeleteUsers
    | ReadLocations

  /** The numeric value of each enum member. */
  function Value(p: Permission): (r: Bits)
    ensures r == 0 <==> p == WithoutPermissions
  {
    match p
    case WithoutPermissions => 0
    case ReadRegisters => 1
    case ReadAllRegisters => 2
    case CreateRegisters => 4
    case UpdateRegisters => 8
    case UpdateAllRegisters => 16
    case DeleteRegisters => 32
    case DeleteAllRegisters => 64
    case ReadSpokespersons => 128
    case ReadAllSpokespersons => 256
    case CreateSpokespersons => 512
    case UpdateSpokespersons => 1024
    case UpdateAllSpokespersons => 2048
    case DeleteSpokespersons => 4096
    case DeleteAllSpokespersons => 8192
    case ReadReports => 16384
    case ExportReports => 32768
    case ReadUsers => 65536
    case CreateUsers => 131072
    case UpdateUsers => 262144
    case DeleteUsers => 524288
    case ReadLocations => 1048576
  }

  /** The bit each non-zero flag occupies. */
  function BitIndex(p: Permission): (k: nat)
    requires p != WithoutPermissions
    ensures k <= 20
  {
    match p
    case ReadRegisters => 0
    case ReadAllRegisters => 1
    case CreateRegisters => 2
    case UpdateRegisters => 3
    case UpdateAllRegisters => 4
    case DeleteRegisters => 5
    case DeleteAllRegisters => 6
    case ReadSpokespersons => 7
    case ReadAllSpokespersons => 8
    case CreateSpokespersons => 9
    case UpdateSpokespersons => 10
    case UpdateAllSpokespersons => 11
    case DeleteSpokespersons => 12
    case DeleteAllSpokespersons => 13
    case ReadReports => 14
    case ExportReports => 15
    case ReadUsers => 16
    case CreateUsers => 17
    case UpdateUsers => 18
    case DeleteUsers => 19
    case ReadLocations => 20
  }

  /** Every non-zero flag is the single bit 2^k for its own k in 0..20, so two different
      flags never overlap. */
  lemma FlagsAreDistinctBits(p: Permission, q: Permission)
    requires p != WithoutPermissions && q != WithoutPermissions
    ensures Value(p) == 1 << BitIndex(p)
    ensures Value(p) & (Value(p) - 1) == 0
    ensures p != q ==> BitIndex(p) != BitIndex(q) && Value(p) & Value(q) == 0
  {
  }

  /** `checkPermission` as written: `(permission & mask) > 0` on the signed 32-bit result. */
  predicate CheckPermission(permission: Bits, mask: Bits) {
    PositiveInt32(permission & mask)
  }

  /** The intended reading: the permission and the mask share at least one flag. */
  predicate SharesFlag(permission: Bits, mask: Bits) {
    permission & mask != 0
  }

  /** WITHOUT_PERMISSIONS never passes, on either side. */
  lemma WithoutPermissionsNeverPasses(p: Bits)
    ensures !CheckPermission(Value(WithoutPermissions), p)
    ensures !CheckPermission(p, Value(WithoutPermissions))
  {
  }

  /** When either operand leaves the sign bit clear, which every combination of the
      defined flags does, the check as written is exactly "shares a flag". */
  lemma CheckMatchesSharesFlag(permission: Bits, mask: Bits)
    requires permission & 0x8000_0000 == 0 || mask & 0x8000_0000 == 0
    ensures CheckPermission(permission, mask) <==> SharesFlag(permission, mask)
  {
  }

  /** For a defined flag, the check tests exactly that flag's bit of the permission. */
  lemma CheckSingleFlag(permission: Bits, f: Permission)
    requires f != WithoutPermissions
    ensures CheckPermission(permission, Value(f)) <==> (permission >> BitIndex(f)) & 1 == 1
  {
    FlagsAreDistinctBits(f, f);
  }

  /** The check as written is symmetric. */
  lemma CheckSymmetric(p: Bits, m: Bits)
    ensures CheckPermission(p, m) == CheckPermission(m, p)
  {
  }

  /** The check as written is not monotone: granting a permission the sign bit as well
      revokes a flag it already had. It also refuses a mask of -1 (all 32 bits set) against
      a permission of -1. */
  lemma CheckNotMonotone()
    ensures CheckPermission(1, 0x8000_0001)
    ensures !CheckPermission(1 | 0x8000_0000, 0x8000_0001)
    ensures !CheckPermission(0xFFFF_FFFF, 0xFFFF_FFFF)
  {
  }

  /** Sharing a flag is symmetric. */
  lemma SharesFlagSymmetric(p: Bits, m: Bits)
    ensures SharesFlag(p, m) == SharesFlag(m, p)
  {
  }

  /** Sharing a flag is monotone: adding permissions never revokes a flag. */
  lemma SharesFlagMonotone(p: Bits, q: Bits, m: Bits)
    requires SharesFlag(p, m)
    ensures SharesFlag(p | q, m)
  {
  }

  /** Sharing a flag with a union of masks is sharing with one of them. */
  lemma SharesFlagUnion(p: Bits, m1: Bits, m2: Bits)
    ensures SharesFlag(p, m1 | m2) <==> SharesFlag(p, m1) || SharesFlag(p, m2)
  {
    assert p & (m1 | m2) == (p & m1) | (p & m2);
  }
}
