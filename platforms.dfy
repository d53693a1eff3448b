/** The six operating systems the detector can name, in the order of its score table. */
module Platforms {

  datatype Os = Android | Ios | IpadOs | MacOs | Windows | Linux

  /** The insertion order of the score table `{ android, ios, ipados, macos, windows, linux }`. */
  const Order: seq<Os> := [Android, Ios, IpadOs, MacOs, Windows, Linux]

  /** The key the source uses for each system. */
  function Id(o: Os): (r: string)
  {
    match o
    case Android => "android"
    case Ios => "ios"
    case IpadOs => "ipados"
    case MacOs => "macos"
    case Windows => "windows"
    case Linux => "linux"
  }

  /** The systems the detector treats as Apple's (no canvas is drawn for them). */
  predicate IsApple(o: Os)
  {
    o == Ios || o == IpadOs || o == MacOs
  }

  /** Every system occurs in the order exactly once. */
  lemma OrderIsComplete(o: Os)
    ensures o in Order
    ensures forall i, j :: 0 <= i < j < |Order| ==> Order[i] != Order[j]
  {
  }

  lemma AllInOrder()
    ensures forall o: Os :: o in Order
  {
    forall o: Os ensures o in Order {
      OrderIsComplete(o);
    }
  }

  /** The keys are distinct, so a key names one system. */
  lemma IdInjective(a: Os, b: Os)
    ensures Id(a) == Id(b) ==> a == b
  {
  }

  /** `m[o] = (m[o] || 0) + k`: adds to one entry of a score table, an absent entry reading as 0. */
  function Bump(m: map<Os, int>, o: Os, k: int): map<Os, int>
  {
    m[o := (if o in m then m[o] else 0) + k]
  }
}
