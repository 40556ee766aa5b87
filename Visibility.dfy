/**
 * Whether helper processes (PowerShell, the strategy scripts) are started
 * with a hidden window: a package-level flag that starts out false and that
 * the RUN_PROCESS_HIDDEN environment variable may switch at start-up.
 */
module Visibility {
  import opened Text

  /** The spellings that switch hiding off and on, after trimming and lower-casing. */
  const Falsy: set<string> := {"0", "false", "no", "off"}
  const Truthy: set<string> := {"1", "true", "yes", "on"}

  /** The flag's value before the environment is consulted. */
  const DefaultHidden: bool := false

  /** The value the start-up code compares: the variable trimmed and lower-cased. */
  function Normalize(env: string): string {
    TrimSpace(ToLower(env))
  }

  /**
   * The decision table: an empty value and an unknown word keep the current
   * flag, a false word clears it, a true word sets it.
   */
  function Decide(hidden: bool, env: string): bool {
    Apply(hidden, Normalize(env))
  }

  /** The switch on the normalised value. */
  function Apply(hidden: bool, v: string): bool {
    if v == "" then hidden
    else if v in Falsy then false
    else if v in Truthy then true
    else hidden
  }

  /** The package-level flag. */
  class ProcessVisibility {
    var hidden: bool

    constructor ()
      ensures hidden == DefaultHidden
    {
      hidden := DefaultHidden;
    }

    /** The start-up hook: read the variable and apply the decision table. */
    method Init(env: string)
      modifies this
      ensures hidden == Decide(old(hidden), env)
    {
      var v := Normalize(env);
      if v == "" {
        return;
      }
      if v in Falsy {
        hidden := false;
      } else if v in Truthy {
        hidden := true;
      }
    }
  }

  /** The decision table, row by row: false words clear, true words set, anything else keeps. */
  lemma DecisionTable(hidden: bool, v: string)
    ensures v in Falsy ==> !Apply(hidden, v)
    ensures v in Truthy ==> Apply(hidden, v)
    ensures v !in Falsy && v !in Truthy ==> Apply(hidden, v) == hidden
  {
  }

  /** The two word lists do not overlap, so no value is both. */
  lemma WordListsDisjoint()
    ensures Falsy * Truthy == {}
  {
    forall v | v in Falsy ensures v !in Truthy {
      assert v == "0" || v == "false" || v == "no" || v == "off";
    }
  }

  /** An unset or blank variable leaves the code default, which is "shown", not "hidden". */
  lemma BlankKeepsDefault(env: string)
    requires Normalize(env) == ""
    ensures !Decide(DefaultHidden, env)
  {
  }

  lemma LowerPadded()
    ensures ToLower("  TRUE ") == "  true "
  {
    assert ToLower("E ") == "e ";
    assert ToLower("UE ") == "ue ";
    assert ToLower("RUE ") == "rue ";
  }

  lemma TrimPadded()
    ensures TrimSpace("  true ") == "true"
  {
    assert !IsSpace('t') && !IsSpace('e') && IsSpace(' ');
    assert TrimLeftSpace("true ") == "true ";
    assert TrimLeftSpace(" true ") == "true ";
    assert TrimRightSpace("true") == "true";
  }

  lemma NormalizePadded(env: string)
    requires env == "  TRUE "
    ensures Normalize(env) == "true"
  {
    LowerPadded();
    TrimPadded();
  }

  /** Letter case and surrounding blanks do not matter: "  TRUE " hides. */
  lemma PaddedUpperTrueHides(env: string)
    requires env == "  TRUE "
    ensures Decide(false, env)
  {
    NormalizePadded(env);
    assert "true" in Truthy;
  }

  /** Applying the same variable twice changes nothing more than applying it once. */
  lemma DecideIdempotent(hidden: bool, env: string)
    ensures Decide(Decide(hidden, env), env) == Decide(hidden, env)
  {
  }

  /** After start-up the flag is set exactly for a true word, whatever else the variable holds. */
  lemma HiddenAfterStartup(v: string)
    ensures Apply(DefaultHidden, v) <==> v in Truthy
  {
    WordListsDisjoint();
  }
}
