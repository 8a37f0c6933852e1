/** The payment page: a fare carried over from booking, a promo code that
    sets a discount, a choice of payment method, and three steps (choose,
    processing, success). The processing delay is an explicit event. */
module Payment {
  import opened Seqs
  import opened Text
  import opened Numeric

  /** The two codes the page accepts, compared after upper-casing. */
  const Flex20: string := "FLEX20"
  const NewUser: string := "NEWUSER"
  /** NEWUSER takes off at most this many rupees. */
  const NewUserCap: nat := 50

  datatype Promo = Valid(discount: nat) | Invalid

  /** `applyPromoCode`'s decision: FLEX20 is `Math.round(amount * 0.2)`,
      NEWUSER is `Math.min(50, amount)`, anything else is invalid. */
  function CheckPromo(code: string, amount: nat): (r: Promo)
    ensures Upper(code) == Flex20 ==> r == Valid((amount + 2) / 5)
    ensures Upper(code) == NewUser ==> r == Valid(Min(NewUserCap, amount))
    ensures r.Invalid? <==> Upper(code) != Flex20 && Upper(code) != NewUser
    ensures r.Valid? ==> r.discount <= amount
  {
    if Upper(code) == Flex20 then
      Flex20IsFifth(amount);
      Valid(Round(amount as real * 0.2))
    else if Upper(code) == NewUser then Valid(Min(NewUserCap, amount))
    else Invalid
  }

  /** `Math.round(amount * 0.2)` is `(amount + 2) / 5` in integer division. */
  lemma Flex20IsFifth(amount: nat)
    ensures Round(amount as real * 0.2) == (amount + 2) / 5
  {
    assert amount as real * 0.2 == amount as real / 5 as real;
    RoundQuotient(amount, 5);
    assert (2 * amount + 5) / 10 == (amount + 2) / 5;
  }

  /** The codes are recognised in any letter case. */
  lemma CodesIgnoreCase(code: string, amount: nat)
    ensures Lower(code) == "flex20" ==> CheckPromo(code, amount) == Valid((amount + 2) / 5)
    ensures Lower(code) == "newuser" ==> CheckPromo(code, amount) == Valid(Min(NewUserCap, amount))
  {
    UpperIgnoresCase(code);
  }

  datatype State = State(
    amount: nat,
    discount: int,
    code: string,
    payMethod: Option<string>,
    step: nat,
    processing: bool)

  /** The page once the fare has been read from the link. */
  function Initial(amount: nat): State {
    State(amount, 0, "", None, 1, false)
  }

  /** The "Total" and "Pay" figure: never negative and never above the fare
      while the discount is in range. */
  function Total(s: State): (r: int)
    ensures Ok(s) ==> 0 <= r <= s.amount
    ensures s.discount == 0 ==> r == s.amount
  {
    s.amount - s.discount
  }

  /** `applyPromoCode` ("Apply", disabled while the code is empty): a valid
      code replaces the discount; an invalid one leaves it and raises the
      "Invalid promo code" alert, reported as `alerted`. */
  function Apply(s: State): (r: (State, bool))
    ensures r.0 == s.(discount := r.0.discount)
    ensures s.code == "" ==> r == (s, false)
    ensures s.code != "" ==>
              match CheckPromo(s.code, s.amount)
              case Valid(d) => r.0.discount == d && !r.1
              case Invalid => r.0.discount == s.discount && r.1
  {
    if s.code == "" then (s, false)
    else match CheckPromo(s.code, s.amount)
      case Valid(d) => (s.(discount := d), false)
      case Invalid => (s, true)
  }

  /** A code replaces, never adds to, the previous discount: the discount
      after applying it does not depend on the one before. */
  lemma ApplyOverwrites(s: State, previous: int)
    requires s.code != "" && CheckPromo(s.code, s.amount).Valid?
    ensures Apply(s).0.discount == Apply(s.(discount := previous)).0.discount
  {
  }

  /** FLEX20 on a fare of 170 takes off 34, leaving 136. */
  lemma Flex20On170()
    ensures var r := Apply(Initial(170).(code := "FLEX20")).0;
            r.discount == 34 && Total(r) == 136
  {
    assert Upper("FLEX20") == Flex20;
  }

  datatype Event =
    | CodeTyped(value: string)
    | ApplyClicked
    | MethodClicked(id: string)
    /** "Pay" (disabled while no method is chosen). */
    | PayClicked
    /** The simulated processing delay elapses. */
    | ProcessingFinished

  /** One event. The code field, the method cards and "Pay" are only on
      screen in step 1. */
  function Step(s: State, e: Event): (r: State)
    ensures r.amount == s.amount
    ensures !e.ApplyClicked? ==> r.discount == s.discount
  {
    match e
    case CodeTyped(v) => if s.step == 1 then s.(code := v) else s
    case ApplyClicked => if s.step == 1 then Apply(s).0 else s
    case MethodClicked(id) => if s.step == 1 then s.(payMethod := Some(id)) else s
    case PayClicked =>
      if s.step == 1 && Truthy(s.payMethod) then s.(processing := true, step := 2) else s
    case ProcessingFinished =>
      if s.processing then s.(processing := false, step := 3) else s
  }

  /** The discount stays between 0 and the fare, so the total is never
      negative; processing happens exactly in step 2. */
  predicate Ok(s: State) {
    0 <= s.discount <= s.amount && 1 <= s.step <= 3 && (s.processing <==> s.step == 2)
  }

  lemma StepKeepsOk(s: State, e: Event)
    requires Ok(s)
    ensures Ok(Step(s, e)) && Total(Step(s, e)) >= 0
  {
  }

  /** The step only moves forward: 1 to 2 on "Pay" with a method chosen,
      2 to 3 when processing finishes. */
  lemma StepTransitions(s: State, e: Event)
    requires Ok(s)
    ensures var r := Step(s, e);
            s.step <= r.step &&
            (r.step == 2 && s.step != 2 ==> s.step == 1 && e.PayClicked? && Truthy(s.payMethod)) &&
            (r.step == 3 && s.step != 3 ==> s.step == 2 && e.ProcessingFinished?)
  {
  }

  lemma InitialOk(amount: nat)
    ensures Ok(Initial(amount)) && Total(Initial(amount)) == amount
  {
  }

  /** Paying without a method does nothing; with one, processing runs to success. */
  lemma PayNeedsMethod(s: State)
    requires Ok(s) && s.step == 1
    ensures !Truthy(s.payMethod) ==> Step(s, PayClicked) == s
    ensures Truthy(s.payMethod) ==> Step(Step(s, PayClicked), ProcessingFinished).step == 3
  {
  }
}
