/**
  The faction-selection page: the faction picked so far and whether the
  confirmation is in progress. It is the only part of character creation
  on the client, a single step with two choices.
*/
module FactionPage {
  import opened Wrappers
  import opened Models
  import opened Web

  /** Only the two faction cards can set the selection. */
  datatype Page = Page(selected: Option<Faction>, isLoading: bool)

  const Initial := Page(None, false)

  /** Picking a faction card. */
  function Select(p: Page, f: Faction): (r: Page)
    ensures r.selected == Some(f) && r.isLoading == p.isLoading
  {
    p.(selected := Some(f))
  }

  /** Whether the confirm button is disabled. */
  predicate ConfirmDisabled(p: Page) {
    p.isLoading || p.selected.None?
  }

  const NoSelectionMessage := "Please select a faction before continuing."

  function WelcomeText(f: Faction): string {
    "Welcome to " + FactionName(f) + "! Your journey begins..."
  }

  /** A confirmation: the page afterwards, the notice shown, and a navigation scheduled after a delay. */
  datatype Confirmed = Confirmed(page: Page, toast: Toast, navigate: Option<string>, delayMs: int)

  /**
    Confirming: without a selection an error is shown, loading is not
    started and nothing is scheduled; with one, the faction is announced,
    the game screen is scheduled two seconds later, and loading is over
    once the handler returns.
  */
  function Confirm(p: Page): (c: Confirmed)
    ensures p.selected.None? ==> c.page == p && c.navigate.None? && c.toast == ErrorText(NoSelectionMessage)
    ensures p.selected.Some? ==> (c.page == p.(isLoading := false) && c.navigate == Some("/game") && c.delayMs == 2000
      && c.toast == Toast(SuccessToast, Str(WelcomeText(p.selected.value))))
  {
    match p.selected
    case None => Confirmed(p, ErrorText(NoSelectionMessage), None, 0)
    case Some(f) => Confirmed(p.(isLoading := false), Toast(SuccessToast, Str(WelcomeText(f))), Some("/game"), 2000)
  }

  /** The later of two selections wins. */
  lemma LastSelectionWins(p: Page, f: Faction, g: Faction)
    ensures Select(Select(p, f), g) == Select(p, g)
  {
  }

  /** The button is enabled exactly when a confirmation would navigate to the game. */
  lemma EnabledIffNavigates(p: Page)
    requires !p.isLoading
    ensures !ConfirmDisabled(p) <==> Confirm(p).navigate == Some("/game")
  {
  }

  /** Picking a faction on a fresh page enables the button, and confirming ends with loading off. */
  lemma SelectThenConfirm(f: Faction)
    ensures !ConfirmDisabled(Select(Initial, f))
    ensures var c := Confirm(Select(Initial, f)); !c.page.isLoading && c.page.selected == Some(f)
  {
  }

  /** The announced faction is one of the stored faction choices, and the welcome names it. */
  lemma AnnouncedFactionIsAChoice(f: Faction)
    ensures FactionName(f) in FactionChoices
    ensures var w := WelcomeText(f);
      |w| == |FactionName(f)| + 35 && w[11..11 + |FactionName(f)|] == FactionName(f)
  {
    ChoicesAreTheEnumerations(f, Castilian, Knight);
  }
}
