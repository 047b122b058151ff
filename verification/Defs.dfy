/** The vocabulary shared by every module: addresses, filter modes, record types,
    protocol versions and the membership view a router keeps of one group. */
module Defs {

  /** Addresses of one family; only their strict total order matters. */
  type Addr = nat

  /** Index of a network interface. */
  type IfIndex = nat

  datatype Option<+T> = None | Some(value: T)

  datatype FilterMode = Include | Exclude

  /** `Unknown` stands for every type number outside 1..6 that a packet may carry. */
  datatype RecordType = IsIn | IsEx | ToIn | ToEx | Allow | Block | Unknown

  datatype Version = IGMPv1 | IGMPv2 | IGMPv3 | MLDv1 | MLDv2 {

    /** The number the program compares versions by. */
    function Code(): nat {
      match this
      case IGMPv1 => 1
      case IGMPv2 => 2
      case IGMPv3 => 4
      case MLDv1 => 8
      case MLDv2 => 16
    }

    predicate IsNewest() {
      IGMPv3? || MLDv2?
    }

    predicate IsIPv4() {
      IGMPv1? || IGMPv2? || IGMPv3?
    }

    predicate OlderOrEqual(other: Version) {
      Code() <= other.Code()
    }
  }

  /** The next newer version has twice the number and stays in its own family, so that
      two steps lead from any version to the newest one of that family. */
  function NextNewer(v: Version): (w: Version)
    ensures w.Code() == if v.IsNewest() then v.Code() else 2 * v.Code()
    ensures w.IsIPv4() == v.IsIPv4()
    ensures v.IsNewest() || w.IsNewest() || (v == IGMPv1 && w == IGMPv2)
  {
    match v
    case IGMPv1 => IGMPv2
    case IGMPv2 => IGMPv3
    case IGMPv3 => IGMPv3
    case MLDv1 => MLDv2
    case MLDv2 => MLDv2
  }

  /** What a listener, a router or a whole link wants of one group. */
  datatype View = View(mode: FilterMode, sources: set<Addr>) {
    predicate Admits(a: Addr) {
      if mode.Include? then a in sources else a !in sources
    }
  }

  const NOTHING := View(Include, {})
  const EVERYTHING := View(Exclude, {})

  /** Every source admitted by `v` is admitted by `w`. */
  ghost predicate Within(v: View, w: View) {
    forall a :: v.Admits(a) ==> w.Admits(a)
  }
}
