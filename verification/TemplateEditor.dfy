/** The tabbed challenge-template editor (public/admin.js): one textarea shared by all providers, with maps
    that are filled lazily when a tab is first opened. Reading a textarea's value gives its text with every line
    break as a single newline, so opening a tab is not quite harmless. */
module TemplateEditor {
  import opened Options
  import opened Text

  type Provider = string

  datatype Edit = Type(text: string) | SwitchTab(provider: Provider)

  // ---------------------------------------------------------------------------------------------
  // The reference: what the administrator did

  function ActiveAfter(edits: seq<Edit>, first: Provider): Provider {
    if edits == [] then first
    else match edits[|edits| - 1]
      case SwitchTab(p) => p
      case Type(_) => ActiveAfter(edits[..|edits| - 1], first)
  }

  /** The last text typed while p's tab was open. */
  function LastTyped(edits: seq<Edit>, first: Provider, p: Provider): Option<string> {
    if edits == [] then None
    else
      var before := edits[..|edits| - 1];
      match edits[|edits| - 1]
      case Type(text) => if ActiveAfter(before, first) == p then Some(text) else LastTyped(before, first, p)
      case SwitchTab(_) => LastTyped(before, first, p)
  }

  /** p's tab was open at some time. */
  predicate Opened(edits: seq<Edit>, first: Provider, p: Provider) {
    p == first || SwitchTab(p) in edits
  }

  /** What p would be saved with: the last text typed under its tab, or its effective template, read through the
      textarea if the tab was ever open. */
  function Reference(edits: seq<Edit>, first: Provider, effective: Provider -> string, p: Provider): string {
    match LastTyped(edits, first, p)
    case Some(text) => Normalized(text)
    case None => if Opened(edits, first, p) then Normalized(effective(p)) else effective(p)
  }

  class Editor {
    /** `challengeEffectiveTemplate` for the site being edited. */
    const effective: Provider -> string
    var textarea: string
    var active: Option<Provider>
    var values: map<Provider, string>
    var originals: map<Provider, string>

    /** The text provider p would be saved with. */
    function Text(p: Provider): string
      reads this
    {
      if active == Some(p) then Normalized(textarea) else if p in values then values[p] else effective(p)
    }

    ghost predicate Valid()
      reads this
    {
      && active.Some? && active.value in values
      && values.Keys == originals.Keys
      && (forall p <- originals :: originals[p] == effective(p))
      && forall p <- values :: active != Some(p) ==> Normalized(values[p]) == values[p]
    }

    /** `resetChallengeTemplateEditor`, opening the first provider's tab. */
    constructor (effective: Provider -> string, first: Provider)
      ensures Valid() && this.effective == effective && active == Some(first)
      ensures forall p :: Text(p) == Reference([], first, effective, p)
    {
      this.effective := effective;
      textarea, active, values, originals := "", None, map[], map[];
      new;
      SwitchTo(first);
    }

    method TypeText(text: string)
      requires Valid()
      modifies this`textarea
      ensures Valid()
      ensures forall p :: Text(p) == if active == Some(p) then Normalized(text) else old(Text(p))
    {
      textarea := text;
    }

    /** Writes the textarea back into the map. */
    method Store()
      requires Valid()
      modifies this`values
      ensures Valid() && forall p :: Text(p) == old(Text(p))
      ensures values == old(values)[active.value := Normalized(textarea)]
    {
      hide Normalized;
      values := values[active.value := Normalized(textarea)];
    }

    /** `switchChallengeTemplateTab`: no other provider's text changes, and the opened one's keeps all but its line
        breaks, so it changes exactly if it has a carriage return. */
    method SwitchTo(provider: Provider)
      requires active.Some? ==> Valid()
      requires active.None? ==> values == originals == map[]
      modifies this
      ensures Valid() && active == Some(provider)
      ensures forall p :: p != provider ==> Text(p) == old(Text(p))
      ensures Text(provider) == Normalized(old(Text(provider)))
      ensures Text(provider) == old(Text(provider)) <==> '\r' !in old(Text(provider))
    {
      hide Normalized;
      NormalizedIff(Text(provider));
      if active.Some? {
        NormalizedTwice(textarea);
        Store();
      }
      OpenTab(provider);
    }

    /** The part of a switch after the old tab's text was written back. */
    method OpenTab(provider: Provider)
      requires values.Keys == originals.Keys && forall p <- originals :: originals[p] == effective(p)
      requires active.Some? ==> active.value in values && Normalized(textarea) == values[active.value]
      requires forall p <- values :: Normalized(values[p]) == values[p]
      modifies this
      ensures Valid() && active == Some(provider)
      ensures forall p :: p != provider ==> Text(p) == old(Text(p))
      ensures Text(provider) == Normalized(old(Text(provider)))
    {
      hide Normalized;
      assert forall p :: Text(p) == if p in values then values[p] else effective(p);
      active := Some(provider);
      FillIn(provider);
      textarea := values[provider];
    }

    /** The maps' entries of a tab that is opened for the first time. */
    method FillIn(provider: Provider)
      requires values.Keys == originals.Keys && forall p <- originals :: originals[p] == effective(p)
      modifies this`values, this`originals
      ensures values.Keys == originals.Keys && forall p <- originals :: originals[p] == effective(p)
      ensures values == if provider in old(values) then old(values) else old(values)[provider := effective(provider)]
    {
      if provider !in values {
        var text := effective(provider);
        values := values[provider := text];
        originals := originals[provider := text];
      }
    }

    /** `collectChallengeHtmlTemplates`: exactly the listed providers whose text differs from the effective one. */
    method Collect(providers: seq<Provider>) returns (result: map<Provider, string>)
      requires Valid()
      modifies this`values
      ensures Valid() && forall p :: Text(p) == old(Text(p))
      ensures forall p :: p in result <==> p in providers && Text(p) != effective(p)
      ensures forall p <- result :: result[p] == Text(p)
    {
      hide Normalized;
      Store();
      result := map[];
      for i := 0 to |providers|
        invariant forall p :: p in result <==> p in providers[..i] && Text(p) != effective(p)
        invariant forall p <- result :: result[p] == Text(p)
      {
        var p := providers[i];
        if p in values && values[p] != originals[p] {
          result := result[p := values[p]];
        }
      }
      assert providers[..|providers|] == providers;
    }

    method PerformOne(edit: Edit)
      requires Valid()
      modifies this
      ensures Valid() && active == Some(match edit case Type(_) => old(active).value case SwitchTab(p) => p)
      ensures forall p :: Text(p) == After(edit, old(active).value, p, old(Text(p)))
    {
      hide Normalized;
      match edit {
        case Type(text) => TypeText(text);
        case SwitchTab(p) => SwitchTo(p);
      }
    }

    /** Any sequence of typing and tab switches leaves every provider with its reference text. */
    method Perform(edits: seq<Edit>, ghost first: Provider)
      requires Valid() && active == Some(first) && forall p :: Text(p) == Reference([], first, effective, p)
      modifies this
      ensures Valid()
      ensures forall p :: Text(p) == Reference(edits, first, effective, p)
    {
      hide Normalized, Reference, After, Text, Valid;
      for i := 0 to |edits|
        invariant Valid() && active == Some(ActiveAfter(edits[..i], first))
        invariant forall p :: Text(p) == Reference(edits[..i], first, effective, p)
      {
        forall p ensures Reference(edits[..i + 1], first, effective, p) ==
                         After(edits[i], ActiveAfter(edits[..i], first), p, Reference(edits[..i], first, effective, p))
        {
          NextReference(edits, i, first, effective, p);
        }
        assert edits[..i + 1][..i] == edits[..i];
        PerformOne(edits[i]);
      }
      assert edits[..|edits|] == edits;
    }
  }

  /** What one more edit does to a provider's reference text. */
  function After(edit: Edit, active: Provider, p: Provider, text: string): string {
    match edit
    case Type(typed) => if active == p then Normalized(typed) else text
    case SwitchTab(q) => if q == p then Normalized(text) else text
  }

  lemma NextReference(edits: seq<Edit>, i: nat, first: Provider, effective: Provider -> string, p: Provider)
    requires i < |edits|
    ensures Reference(edits[..i + 1], first, effective, p) ==
            After(edits[i], ActiveAfter(edits[..i], first), p, Reference(edits[..i], first, effective, p))
  {
    hide Normalized;
    var before := edits[..i];
    assert edits[..i + 1] == before + [edits[i]] && edits[..i + 1][..i] == before;
    match LastTyped(before, first, p) {
      case Some(text) => NormalizedTwice(text);
      case None => NormalizedTwice(effective(p));
    }
  }

  /** A provider is collected although nothing was typed under its tab exactly when the tab was opened and its
      effective template has a carriage return. */
  lemma CollectedUntouchedIff(edits: seq<Edit>, first: Provider, effective: Provider -> string, p: Provider)
    requires LastTyped(edits, first, p).None?
    ensures Reference(edits, first, effective, p) != effective(p) <==> Opened(edits, first, p) && '\r' in effective(p)
  {
    NormalizedIff(effective(p));
  }
}
