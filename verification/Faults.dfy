/** Fault severities, dispositions and the one code a fault word is reported as,
    control/Src/faults.c. A fault word is the set of its bit positions. */
module Faults {
  type Word = set<nat>

  const OPEN: Word := {0, 1, 3, 5, 8, 15, 18}
  const LIMP: Word := {6, 7, 11, 12, 13}
  const BLOCK: Word := {9, 10, 17}
  const WARN: Word := {2, 4, 14, 16}

  const CRITICAL: nat := 3
  const FAULT: nat := 2
  const WARNING: nat := 1
  const INFO: nat := 0

  function Severity(f: Word): nat
  {
    if f * OPEN != {} then CRITICAL
    else if f * (LIMP + BLOCK) != {} then FAULT
    else if f * WARN != {} then WARNING
    else INFO
  }

  datatype Disposition = Continue | LimpHome | OpenField

  function DispositionOf(f: Word): Disposition
  {
    if f * OPEN != {} then OpenField else if f * LIMP != {} then LimpHome else Continue
  }

  /** Bit `b` is the pick: nothing is more severe, nothing as severe has a lower position. */
  ghost predicate IsPick(f: Word, b: nat)
  {
    && b in f
    && forall c :: c in f ==> Severity({c}) < Severity({b}) || (Severity({c}) == Severity({b}) && b <= c)
  }

  /** Bits outside the 32-bit word are never set. */
  predicate IsWord(f: Word) { forall b :: b in f ==> b < 32 }

  /** The pick among bits `b` and up, scanned from below. */
  function Scan(f: Word, b: nat, best: nat, found: bool): nat
    requires b <= 32
    decreases 32 - b
  {
    if b == 32 then best
    else if b in f && (!found || Severity({b}) > Severity({best})) then Scan(f, b + 1, b, true)
    else Scan(f, b + 1, best, found)
  }

  function TopCode(f: Word): (c: nat)
  {
    if f == {} then 0 else Scan(f, 0, 0, false) + 1
  }

  ghost predicate BestBelow(f: Word, b: nat, best: nat, found: bool)
  {
    if found then best < b && best in f && forall c :: c in f && c < b ==>
                    Severity({c}) < Severity({best}) || (Severity({c}) == Severity({best}) && best <= c)
    else forall c :: c in f ==> c >= b
  }

  lemma {:induction false} ScanPicks(f: Word, b: nat, best: nat, found: bool)
    requires IsWord(f) && f != {} && b <= 32 && BestBelow(f, b, best, found)
    ensures IsPick(f, Scan(f, b, best, found))
    decreases 32 - b
  {
    if b < 32 {
      if b in f && (!found || Severity({b}) > Severity({best})) {
        ScanPicks(f, b + 1, b, true);
      } else {
        ScanPicks(f, b + 1, best, found);
      }
    } else {
      var c :| c in f;
      assert c < 32;
    }
  }

  /** The code is 0 exactly without a fault; otherwise its bit is the most severe one, the
      lowest of them, and no other bit could have been picked. */
  lemma TopCodePicks(f: Word, b: nat)
    requires IsWord(f)
    ensures TopCode(f) == 0 <==> f == {}
    ensures f != {} ==> (IsPick(f, b) <==> TopCode(f) == b + 1)
    ensures TopCode(f) <= 32
  {
    if f != {} {
      ScanPicks(f, 0, 0, false);
      var p := Scan(f, 0, 0, false);
      assert p in f;
    }
  }

  /** The class of a word is that of its pick, and each declared bit is in one class. */
  lemma SeverityOfPick(f: Word, b: nat)
    requires IsPick(f, b)
    ensures Severity(f) == Severity({b})
  {
    SingleSeverity(b);
    forall c | c in f ensures Severity({c}) <= Severity({b}) {}
    assert b in OPEN ==> b in f * OPEN;
    assert b in LIMP + BLOCK ==> b in f * (LIMP + BLOCK);
    assert b in WARN ==> b in f * WARN;
    if f * OPEN != {} {
      var c :| c in f * OPEN;
      SingleSeverity(c);
    } else if f * (LIMP + BLOCK) != {} {
      var c :| c in f * (LIMP + BLOCK);
      SingleSeverity(c);
    } else if f * WARN != {} {
      var c :| c in f * WARN;
      SingleSeverity(c);
    }
  }

  lemma SingleSeverity(b: nat)
    ensures Severity({b}) == if b in OPEN then CRITICAL else if b in LIMP + BLOCK then FAULT else if b in WARN then WARNING else INFO
  {
    assert {b} * OPEN == (if b in OPEN then {b} else {});
    assert {b} * (LIMP + BLOCK) == (if b in LIMP + BLOCK then {b} else {});
    assert {b} * WARN == (if b in WARN then {b} else {});
  }

  /** Each of the nineteen declared bits is in exactly one class, and no other bit is in any. */
  lemma EveryBitHasOneClass(b: nat)
    ensures b < 19 <==> b in OPEN || b in LIMP || b in BLOCK || b in WARN
    ensures !(b in OPEN && b in LIMP) && !(b in OPEN && b in BLOCK) && !(b in OPEN && b in WARN)
    ensures !(b in LIMP && b in BLOCK) && !(b in LIMP && b in WARN) && !(b in BLOCK && b in WARN)
  {
    if b < 19 {
      assert b in {0, 1, 2, 3, 4, 5, 6, 7, 8, 9, 10, 11, 12, 13, 14, 15, 16, 17, 18};
    }
  }

  /** ctrl_fault_top_code: the loop over the 32 bits. */
  method ComputeTopCode(f: Word) returns (code: nat)
    ensures code == TopCode(f)
  {
    if f == {} { return 0; }
    var bit, bestBit, best, found := 0, 0, INFO, false;
    while bit < 32
      invariant 0 <= bit <= 32 && (found ==> best == Severity({bestBit}))
      invariant Scan(f, bit, bestBit, found) == Scan(f, 0, 0, false)
    {
      if bit in f {
        var s := Severity({bit});
        if !found || s > best {
          best, bestBit, found := s, bit, true;
        }
      }
      bit := bit + 1;
    }
    code := bestBit + 1;
  }
}
