/**
 * The capability part of a notifier (notifiers/notifierbase.py): a bit mask of
 * the modes it can serve, tested with a bitwise intersection.
 */
module NotifierBase {
  import opened Constants
  import opened Bits

  /** A registered notifier: its class name (what `__str__` reports) and its mode mask. */
  datatype Notifier = Notifier(name: string, modes: nat)

  /** `NotifierBase.__init__`: a new notifier handles matches only. */
  function NewNotifier(name: string): (n: Notifier)
    ensures n.name == name
    ensures CheckMode(n, ModeMatch) && !CheckMode(n, ModeLeague)
  {
    var n := Notifier(name, ModeMatch);
    assert And(ModeMatch, ModeMatch) == 1 by {
      assert And(0, 0) == 0;
    }
    assert And(ModeLeague, ModeMatch) == 0 by {
      assert And(1, 0) == 0;
    }
    n
  }

  /** `checkMode`: `bool(mode & self._modes)`. */
  function CheckMode(n: Notifier, mode: nat): (compatible: bool)
    ensures mode == 0 ==> !compatible
  {
    And(mode, n.modes) != 0
  }

  /** Extending a notifier with further modes: they are OR-ed in, never taken away. */
  function AddModes(n: Notifier, extra: nat): (n': Notifier)
    ensures n'.name == n.name
    ensures forall i: nat :: Bit(n'.modes, i) <==> Bit(n.modes, i) || Bit(extra, i)
  {
    OrBits(n.modes, extra);
    n.(modes := Or(n.modes, extra))
  }

  /** The capability set view of a mask: the mode bits it holds. */
  ghost predicate SharesMode(mode: nat, modes: nat)
  {
    exists i: nat :: Bit(mode, i) && Bit(modes, i)
  }

  /** `checkMode(m)` holds exactly when `m` and the notifier's mask have a mode bit in common. */
  lemma CheckModeIffSharedMode(n: Notifier, mode: nat)
    ensures CheckMode(n, mode) <==> SharesMode(mode, n.modes)
  {
    var both := And(mode, n.modes);
    NonZeroIffSomeBit(both);
    if CheckMode(n, mode) {
      var i: nat :| Bit(both, i);
      AndBit(mode, n.modes, i);
    }
    if SharesMode(mode, n.modes) {
      var i: nat :| Bit(mode, i) && Bit(n.modes, i);
      AndBit(mode, n.modes, i);
    }
  }

  /** Asking about two modes at once is asking about either of them. */
  lemma CheckModeOfUnion(n: Notifier, a: nat, b: nat)
    ensures CheckMode(n, Or(a, b)) <==> CheckMode(n, a) || CheckMode(n, b)
  {
    CheckModeIffSharedMode(n, Or(a, b));
    CheckModeIffSharedMode(n, a);
    CheckModeIffSharedMode(n, b);
    forall i: nat ensures Bit(Or(a, b), i) <==> Bit(a, i) || Bit(b, i) {
      OrBit(a, b, i);
    }
  }

  /** Capabilities only grow: a mode a notifier served is still served after adding modes. */
  lemma AddModesKeepsCompatibility(n: Notifier, extra: nat, mode: nat)
    requires CheckMode(n, mode)
    ensures CheckMode(AddModes(n, extra), mode)
  {
    CheckModeIffSharedMode(n, mode);
    CheckModeIffSharedMode(AddModes(n, extra), mode);
    var i: nat :| Bit(mode, i) && Bit(n.modes, i);
    OrBit(n.modes, extra, i);
  }

  /** Adding modes makes the added ones available. */
  lemma AddModesGrantsMode(n: Notifier, extra: nat)
    requires extra != 0
    ensures CheckMode(AddModes(n, extra), extra)
  {
    NonZeroIffSomeBit(extra);
    var i: nat :| Bit(extra, i);
    OrBit(n.modes, extra, i);
    CheckModeIffSharedMode(AddModes(n, extra), extra);
  }
}
