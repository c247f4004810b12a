/** The tips page (src/components/TipsDisplay.tsx): one card per tip, each
    with the tip's text and the icon it resolves to. */
module TipsDisplay {
  import opened Wrappers

  /** A tip is a plain string or a `TipObject` with an optional icon
      (src/utils/dataUtils.ts). */
  datatype Tip = PlainTip(text: string) | ObjectTip(text: string, icon: Option<string>)

  /** The default of the `tipIcon` property, U+1F4A1 (light bulb). */
  const DefaultTipIcon: string := "\U{1F4A1}"

  /** The text of a tip: the string itself, or the object's `text`. */
  function TipText(t: Tip): (text: string)
    ensures t.PlainTip? ==> text == t.text
    ensures t.ObjectTip? ==> text == t.text
  {
    match t
    case PlainTip(s) => s
    case ObjectTip(s, _) => s
  }

  /** The icon of a tip: its own icon when it is an object whose `icon` is
      a non-empty string (JavaScript truthiness), otherwise `tipIcon`. */
  function TipIcon(t: Tip, tipIcon: string): (icon: string)
    ensures t.ObjectTip? && t.icon.Some? && t.icon.value != "" ==> icon == t.icon.value
    ensures !(t.ObjectTip? && t.icon.Some? && t.icon.value != "") ==> icon == tipIcon
  {
    match t
    case ObjectTip(_, Some(own)) => if own != "" then own else tipIcon
    case _ => tipIcon
  }

  datatype TipCard = TipCard(icon: string, text: string)

  /** The page: the "No tips available" message, or the grid of cards. */
  datatype TipsView = NoTips | TipsGrid(cards: seq<TipCard>)

  /** The whole component. `tips` is absent when the property is `null` or
      `undefined`; `tipIcon` is absent when the property is not given, in
      which case it defaults to the light bulb (an explicit empty string is
      kept as it is). */
  function Render(tips: Option<seq<Tip>>, tipIcon: Option<string>): (v: TipsView)
    ensures v.NoTips? <==> tips.None? || |tips.value| == 0
    ensures v.TipsGrid? ==> |v.cards| == |tips.value|
    ensures v.TipsGrid? ==> forall i :: 0 <= i < |v.cards| ==>
              v.cards[i].text == TipText(tips.value[i])
              && v.cards[i].icon == TipIcon(tips.value[i], tipIcon.GetOr(DefaultTipIcon))
  {
    if tips.None? || |tips.value| == 0 then NoTips
    else
      var ts := tips.value;
      var fallback := tipIcon.GetOr(DefaultTipIcon);
      TipsGrid(seq(|ts|, i requires 0 <= i < |ts| => TipCard(TipIcon(ts[i], fallback), TipText(ts[i]))))
  }

  /** Without a `tipIcon` property no card is drawn without an icon: a tip
      without its own icon shows the light bulb. */
  lemma EveryCardHasAnIcon(tips: seq<Tip>)
    requires |tips| > 0
    ensures forall c :: c in Render(Some(tips), None).cards ==> c.icon != ""
  {
    assert DefaultTipIcon != "" by {
      assert |DefaultTipIcon| == 1;
    }
  }

  /** A plain tip always shows the fallback icon, and an object tip whose
      icon is empty or missing does too. */
  lemma FallbackIcon(t: Tip, tipIcon: string)
    requires t.PlainTip? || t.icon.None? || t.icon == Some("")
    ensures TipIcon(t, tipIcon) == tipIcon
  {
  }
}
