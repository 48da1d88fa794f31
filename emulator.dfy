/** The dry-run port enumerator of `Reset` (reset.go:95-108): a closure over
    one mutable variable, `emulatedPort`, modelled as a class with that field. */
module DryRun {
  import opened Ports

  /** Go's `strings.HasSuffix`. */
  predicate HasSuffix(s: string, suffix: string) {
    |suffix| <= |s| && s[|s| - |suffix|..] == suffix
  }

  /** The ports the emulator reports while its variable holds `p`. */
  function Visible(p: string): (r: set<string>)
    ensures p in r <==> p != ""
    ensures forall q :: q in r ==> q == p
  {
    if p == "" then {} else {p}
  }

  /** How one call changes the emulated port: a name ending in "999" gains a
      trailing "0", the empty name becomes "newport", any other stays. */
  function Advance(p: string): (r: string)
    ensures |p| <= |r| && r[..|p|] == p
    ensures r != ""
    ensures r == p <==> p != "" && !HasSuffix(p, "999")
  {
    if HasSuffix(p, "999") then p + "0"
    else if p == "" then "newport"
    else p
  }

  /** The emulated port after `k` calls, starting from the target port. */
  function PortAfter(portToTouch: string, k: nat): (r: string)
    ensures |portToTouch| <= |r| && r[..|portToTouch|] == portToTouch
    ensures k >= 1 ==> r != ""
  {
    if k == 0 then portToTouch else Advance(PortAfter(portToTouch, k - 1))
  }

  /** The emulator's answer to its k-th call: it never fails. */
  function EmulatedAnswer(portToTouch: string, k: nat): (s: Snapshot)
    ensures s.Listed?
    ensures k == 0 ==> s.ports == Visible(portToTouch)
  {
    Listed(Visible(PortAfter(portToTouch, k)))
  }

  /** A name that has gained its "0" no longer ends in "999", so a second
      call leaves the emulated port where the first one put it. */
  lemma AdvanceSettles(p: string)
    ensures Advance(Advance(p)) == Advance(p)
    ensures HasSuffix(p, "999") ==> !HasSuffix(Advance(p), "999")
  {
    if HasSuffix(p, "999") {
      var q := p + "0";
      assert q[|q| - 1] == '0';
    } else if p == "" {
      assert "newport"[4..] == "ort";
    }
  }

  /** From the first call on, the emulated port is fixed at `Advance(portToTouch)`. */
  lemma {:induction false} PortAfterSettles(portToTouch: string, k: nat)
    requires k >= 1
    ensures PortAfter(portToTouch, k) == Advance(portToTouch)
  {
    if k > 1 {
      PortAfterSettles(portToTouch, k - 1);
      AdvanceSettles(portToTouch);
    }
  }

  class Emulator {
    var emulatedPort: string

    constructor (portToTouch: string)
      ensures emulatedPort == portToTouch
    {
      emulatedPort := portToTouch;
    }

    /** One call of the closure: report the current port (if any), then
        move the emulated port on. */
    method Next() returns (s: Snapshot)
      modifies this
      ensures s == Listed(Visible(old(emulatedPort)))
      ensures emulatedPort == Advance(old(emulatedPort))
    {
      var res: set<string> := {};
      if emulatedPort != "" {
        res := res + {emulatedPort};
      }
      if HasSuffix(emulatedPort, "999") {
        emulatedPort := emulatedPort + "0";
      } else if emulatedPort == "" {
        emulatedPort := "newport";
      }
      s := Listed(res);
    }
  }
}
