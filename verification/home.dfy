/** The landing page: an origin/destination search form with two-pass
    suggestions over the full gazetteer, a mobile-menu flag, and a decorative
    counter that an interval advances every three seconds. */
module Home {
  import opened Suggest
  import Gazetteer

  /** The counter wraps around at this value. */
  const CounterModulus: nat := 100

  /** One interval callback: `prev => (prev + 1) % 100`. */
  function CounterTick(count: nat): (r: nat)
    ensures r < CounterModulus
    ensures count + 1 < CounterModulus ==> r == count + 1
    ensures count + 1 == CounterModulus ==> r == 0
  {
    (count + 1) % CounterModulus
  }

  /** The counter after `k` callbacks, starting from the initial 0. */
  function CounterAfter(k: nat): nat {
    if k == 0 then 0 else CounterTick(CounterAfter(k - 1))
  }

  /** The counter counts the callbacks modulo 100. */
  lemma {:induction false} CounterCountsModulo(k: nat)
    ensures CounterAfter(k) == k % CounterModulus
  {
    if k > 0 {
      CounterCountsModulo(k - 1);
    }
  }

  datatype State = State(fields: Fields, menuOpen: bool, count: nat)

  const Initial := State(EmptyFields, false, 0)

  datatype Event =
    | Form(e: FieldEvent)
    | MenuToggled
    /** One of the links in the open mobile menu. */
    | MenuLinkClicked
    | CounterTicked

  /** The page's invariant: well-formed dropdowns and a counter below 100. */
  predicate Ok(s: State) {
    FieldsOk(s.fields, Gazetteer.HomeLocations) && s.count < CounterModulus
  }

  function Step(s: State, e: Event): (r: State)
    ensures e.Form? ==> r.menuOpen == s.menuOpen && r.count == s.count
    ensures e.MenuToggled? ==> r.menuOpen == !s.menuOpen && r.fields == s.fields && r.count == s.count
    ensures e.MenuLinkClicked? ==> !r.menuOpen && r.fields == s.fields && r.count == s.count
    ensures e.CounterTicked? ==> r.fields == s.fields && r.menuOpen == s.menuOpen
  {
    match e
    case Form(fe) => s.(fields := FieldsStep(s.fields, fe, TwoPass, Gazetteer.HomeLocations))
    case MenuToggled => s.(menuOpen := !s.menuOpen)
    case MenuLinkClicked => s.(menuOpen := false)
    case CounterTicked => s.(count := CounterTick(s.count))
  }

  /** Every event keeps the page's invariant; the initial state has it. */
  lemma StepKeepsOk(s: State, e: Event)
    requires Ok(s)
    ensures Ok(Step(s, e))
  {
    if e.Form? {
      FieldsStepKeepsOk(s.fields, e.e, TwoPass, Gazetteer.HomeLocations);
    }
  }

  lemma InitialOk()
    ensures Ok(Initial)
  {
  }

  /** Toggling the mobile menu twice restores it. */
  lemma ToggleTwice(s: State)
    ensures Step(Step(s, MenuToggled), MenuToggled) == s
  {
  }
}
