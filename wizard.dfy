/**
 * The onboarding wizard: two screens (persona, then language), three state
 * cells and the handlers that update them. The `onComplete` callback is
 * modelled as a log of the (persona, language) pairs it was called with.
 */
module Onboarding {

  /** The persona buttons on step 1. */
  const Personas: seq<string> := ["patient", "practice", "clinic"]

  /** The language buttons on step 2. */
  const Languages: seq<string> := ["en", "ro", "ar"]

  /** One call of `onComplete(persona, language)`. */
  datatype Completion = Completion(persona: string, language: string)

  class Wizard {
    var step: int
    var selectedPersona: string
    var selectedLanguage: string
    /** Every `onComplete` call so far, oldest first. */
    var calls: seq<Completion>

    /**
     * `step` is 1 or 2, and `onComplete` has only ever been handed
     * non-empty selections.
     */
    predicate Valid()
      reads this
    {
      && (step == 1 || step == 2)
      && forall c :: c in calls ==> c.persona != "" && c.language != ""
    }

    /** Every selection made so far, and every one handed on, is one of the buttons. */
    predicate FromOptions()
      reads this
    {
      && (selectedPersona == "" || selectedPersona in Personas)
      && (selectedLanguage == "" || selectedLanguage in Languages)
      && forall c :: c in calls ==> c.persona in Personas && c.language in Languages
    }

    /** A fresh wizard: step 1, nothing selected, no call made. */
    constructor ()
      ensures step == 1 && selectedPersona == "" && selectedLanguage == "" && calls == []
      ensures Valid() && FromOptions()
    {
      step := 1;
      selectedPersona := "";
      selectedLanguage := "";
      calls := [];
    }

    /** `handlePersonaSelect`: overwrite the persona and nothing else. */
    method SelectPersona(persona: string)
      modifies this
      ensures selectedPersona == persona
      ensures step == old(step) && selectedLanguage == old(selectedLanguage) && calls == old(calls)
      ensures old(Valid()) ==> Valid()
      ensures old(FromOptions()) && persona in Personas ==> FromOptions()
    {
      selectedPersona := persona;
    }

    /** `handleLanguageSelect`: overwrite the language and nothing else. */
    method SelectLanguage(language: string)
      modifies this
      ensures selectedLanguage == language
      ensures step == old(step) && selectedPersona == old(selectedPersona) && calls == old(calls)
      ensures old(Valid()) ==> Valid()
      ensures old(FromOptions()) && language in Languages ==> FromOptions()
    {
      selectedLanguage := language;
    }

    /** `handleNext`: go to step 2 from step 1 once a persona is chosen; otherwise do nothing. */
    method Next()
      modifies this
      ensures old(step) == 1 && old(selectedPersona) != "" ==> step == 2
      ensures !(old(step) == 1 && old(selectedPersona) != "") ==> step == old(step)
      ensures selectedPersona == old(selectedPersona) && selectedLanguage == old(selectedLanguage)
      ensures calls == old(calls)
      ensures old(Valid()) ==> Valid()
      ensures old(FromOptions()) ==> FromOptions()
    {
      if step == 1 && selectedPersona != "" {
        step := 2;
      }
    }

    /** The Back button on step 2: return to step 1, keeping both selections. */
    method Back()
      modifies this
      ensures step == 1
      ensures selectedPersona == old(selectedPersona) && selectedLanguage == old(selectedLanguage)
      ensures calls == old(calls)
      ensures old(Valid()) ==> Valid()
      ensures old(FromOptions()) ==> FromOptions()
    {
      step := 1;
    }

    /**
     * `handleComplete`: hand both selections to `onComplete` when both are
     * made, whatever the step; otherwise make no call.
     */
    method Complete()
      modifies this
      ensures old(selectedPersona) != "" && old(selectedLanguage) != "" ==>
        calls == old(calls) + [Completion(old(selectedPersona), old(selectedLanguage))]
      ensures old(selectedPersona) == "" || old(selectedLanguage) == "" ==> calls == old(calls)
      ensures step == old(step)
      ensures selectedPersona == old(selectedPersona) && selectedLanguage == old(selectedLanguage)
      ensures old(Valid()) ==> Valid()
      ensures old(FromOptions()) ==> FromOptions()
    {
      if selectedPersona != "" && selectedLanguage != "" {
        calls := calls + [Completion(selectedPersona, selectedLanguage)];
      }
    }

    /** `handleSkip`: always complete with the defaults, patient and English. */
    method Skip()
      modifies this
      ensures calls == old(calls) + [Completion("patient", "en")]
      ensures step == old(step)
      ensures selectedPersona == old(selectedPersona) && selectedLanguage == old(selectedLanguage)
      ensures old(Valid()) ==> Valid()
      ensures old(FromOptions()) ==> FromOptions()
    {
      calls := calls + [Completion("patient", "en")];
    }
  }

  /**
   * The usual path through the wizard: choose a persona, go on, choose a
   * language, finish. `onComplete` is called once, with those two choices.
   */
  method ChooseAndFinish(persona: string, language: string) returns (logged: seq<Completion>)
    requires persona in Personas && language in Languages
    ensures logged == [Completion(persona, language)]
  {
    var w := new Wizard();
    w.SelectPersona(persona);
    w.Next();
    assert w.step == 2;
    w.SelectLanguage(language);
    w.Complete();
    logged := w.calls;
  }

  /** Going on without a persona leaves the wizard on step 1, and finishing makes no call. */
  method NextWithoutPersona() returns (step: int, logged: seq<Completion>)
    ensures step == 1 && logged == []
  {
    var w := new Wizard();
    w.Next();
    w.Complete();
    step, logged := w.step, w.calls;
  }

  /** What a user can do on the wizard's screens. */
  datatype Action =
    | PickPersona(persona: string)
    | PickLanguage(language: string)
    | PressNext
    | PressBack
    | PressFinish
    | PressSkip

  /** Every pick is one of the buttons' values. */
  predicate ButtonsOnly(actions: seq<Action>) {
    forall i :: 0 <= i < |actions| ==>
      && (actions[i].PickPersona? ==> actions[i].persona in Personas)
      && (actions[i].PickLanguage? ==> actions[i].language in Languages)
  }

  /**
   * Any sequence of clicks on a fresh wizard: the step stays 1 or 2, every
   * `onComplete` call carries a persona and a language, and when the picks
   * come from the buttons, so does every call.
   */
  method Session(actions: seq<Action>) returns (step: int, logged: seq<Completion>)
    ensures step == 1 || step == 2
    ensures forall c :: c in logged ==> c.persona != "" && c.language != ""
    ensures ButtonsOnly(actions) ==> forall c :: c in logged ==> c.persona in Personas && c.language in Languages
  {
    var w := new Wizard();
    var i := 0;
    while i < |actions|
      invariant 0 <= i <= |actions| && fresh(w)
      invariant w.Valid()
      invariant ButtonsOnly(actions) ==> w.FromOptions()
    {
      match actions[i] {
        case PickPersona(persona) => w.SelectPersona(persona);
        case PickLanguage(language) => w.SelectLanguage(language);
        case PressNext => w.Next();
        case PressBack => w.Back();
        case PressFinish => w.Complete();
        case PressSkip => w.Skip();
      }
      i := i + 1;
    }
    step, logged := w.step, w.calls;
  }
}
