module Numbers {

  /** Some number is above all of finitely many. */
  lemma {:induction false} Unused(ids: set<int>) returns (k: nat)
    ensures forall i :: i in ids ==> i < k
  {
    k := 0;
    if i :| i in ids {
      var rest := Unused(ids - {i});
      k := if i < rest then rest else i + 1;
      assert forall j :: j in ids ==> j == i || j in ids - {i};
    }
  }
}
