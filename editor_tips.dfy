/** The tips page of the desktop editor (editor/main.py, `TipsEditor`): the
    list of site tips, its labels, and adding, deleting and saving a tip.
    Widget reads and the confirmation dialog are parameters; the list of
    tips is a field the methods reassign. */
module TipsEditor {
  import opened Wrappers
  import opened Strings

  /** An element of the tips list as read from JSON: a bare string, or an
      object whose `text` and `icon` keys may be missing. */
  datatype RawTip = TextTip(s: string) | DictTip(text: Option<string>, icon: Option<string>)

  /** The fallback icon literal of the editor: the UTF-8 bytes of U+1F4A1
      read as Windows-1252, four characters. */
  const MisencodedBulb: string := "\U{F0}\U{178}\U{2019}\U{A1}"

  /** A tip in the shape the editor works with: an object with both keys. */
  predicate IsNormal(t: RawTip) {
    t.DictTip? && t.text.Some? && t.icon.Some?
  }

  predicate AllNormal(ts: seq<RawTip>) {
    forall i :: 0 <= i < |ts| ==> IsNormal(ts[i])
  }

  /** What loading makes of one tip: a string becomes an object with that
      text and an empty icon; a missing key of an object is added as "". */
  function Normalize(t: RawTip): (n: RawTip)
    ensures IsNormal(n)
    ensures t.TextTip? ==> n.text == Some(t.s) && n.icon == Some("")
    ensures t.DictTip? && t.text.Some? ==> n.text == t.text
    ensures t.DictTip? && t.icon.Some? ==> n.icon == t.icon
    ensures t.DictTip? && t.text.None? ==> n.text == Some("")
    ensures t.DictTip? && t.icon.None? ==> n.icon == Some("")
  {
    match t
    case TextTip(s) => DictTip(Some(s), Some(""))
    case DictTip(text, icon) => DictTip(Some(text.GetOr("")), Some(icon.GetOr("")))
  }

  /** Normalising a tip that already has both keys changes nothing. */
  lemma NormalizeKeepsNormal(t: RawTip)
    requires IsNormal(t)
    ensures Normalize(t) == t
  {
  }

  function NormalizeAll(ts: seq<RawTip>): (r: seq<RawTip>)
    ensures |r| == |ts| && AllNormal(r)
    ensures forall i :: 0 <= i < |r| ==> r[i] == Normalize(ts[i])
  {
    seq(|ts|, i requires 0 <= i < |ts| => Normalize(ts[i]))
  }

  /** The text and the own icon of a tip, "" where missing. */
  function TextOf(t: RawTip): string {
    match t
    case TextTip(s) => s
    case DictTip(text, _) => text.GetOr("")
  }

  function OwnIcon(t: RawTip): string {
    match t
    case TextTip(_) => ""
    case DictTip(_, icon) => icon.GetOr("")
  }

  /** The default icon: the config's `tip_icon`, or the fallback literal. */
  function ConfigIcon(config: map<string, string>): string {
    if "tip_icon" in config then config["tip_icon"] else MisencodedBulb
  }

  /** The list text of a tip: shorter than 50 characters it is shown whole;
      otherwise its first 47 characters and "...", 50 in all. */
  function DisplayText(text: string): (r: string)
    ensures |text| < 50 ==> r == text
    ensures |text| >= 50 ==> |r| == 50 && r[..47] == text[..47] && r[47..] == "..."
  {
    if |text| < 50 then text else text[..47] + "..."
  }

  /** The icon a tip shows in the list: its own, or the default when its
      own is empty. */
  function ShownIcon(t: RawTip, config: map<string, string>): string {
    var icon := OwnIcon(t);
    if icon == "" then ConfigIcon(config) else icon
  }

  /** The label of a tip in the list. */
  function Label(t: RawTip, config: map<string, string>): string {
    ShownIcon(t, config) + " " + DisplayText(TextOf(t))
  }

  /** A label is the shown icon, a space and at most 50 characters of text;
      a text under 50 characters appears whole, a longer one by its first
      47 characters followed by "...". */
  lemma LabelShape(t: RawTip, config: map<string, string>)
    ensures var icon := ShownIcon(t, config);
            var text := TextOf(t);
            var shown := Label(t, config);
            |shown| <= |icon| + 51
            && shown[..|icon| + 1] == icon + " "
            && (|text| < 50 ==> shown[|icon| + 1..] == text)
            && (|text| >= 50 ==> shown[|icon| + 1..][..47] == text[..47])
  {
    var icon := ShownIcon(t, config);
    var shown := Label(t, config);
    assert shown == (icon + " ") + DisplayText(TextOf(t));
    assert shown[|icon| + 1..] == DisplayText(TextOf(t));
  }

  /** A tip with its own non-empty icon shows it; any other shows the
      config's `tip_icon`, or the fallback literal without one. */
  lemma ShownIconChoice(t: RawTip, config: map<string, string>)
    ensures OwnIcon(t) != "" ==> ShownIcon(t, config) == OwnIcon(t)
    ensures OwnIcon(t) == "" && "tip_icon" in config ==> ShownIcon(t, config) == config["tip_icon"]
    ensures OwnIcon(t) == "" && "tip_icon" !in config ==> ShownIcon(t, config) == MisencodedBulb
  {
  }

  function Labels(ts: seq<RawTip>, config: map<string, string>): (r: seq<string>)
    ensures |r| == |ts|
    ensures forall i :: 0 <= i < |r| ==> r[i] == Label(ts[i], config)
  {
    seq(|ts|, i requires 0 <= i < |ts| => Label(ts[i], config))
  }

  datatype TipSaveOutcome = NoSelection | EmptyText | IndexOutOfRange | Saved

  /** `save_current` on values: the outcome and the new list, given the
      selected row and the raw text of the two fields. */
  function SaveTip(tips: seq<RawTip>, index: int, textField: string, iconField: string): (r: (TipSaveOutcome, seq<RawTip>))
    ensures r.0 != Saved ==> r.1 == tips
    ensures r.0 == NoSelection <==> index < 0
    ensures r.0 == EmptyText <==> index >= 0 && PyStrip(textField) == ""
    ensures r.0 == Saved <==> 0 <= index < |tips| && PyStrip(textField) != ""
    ensures r.0 == Saved ==> |r.1| == |tips| && r.1[index] == DictTip(Some(PyStrip(textField)), Some(PyStrip(iconField)))
    ensures r.0 == Saved ==> forall j :: 0 <= j < |tips| && j != index ==> r.1[j] == tips[j]
  {
    if index < 0 then (NoSelection, tips)
    else
      var text := PyStrip(textField);
      var icon := PyStrip(iconField);
      if text == "" then (EmptyText, tips)
      else if index >= |tips| then (IndexOutOfRange, tips)
      else (Saved, tips[index := DictTip(Some(text), Some(icon))])
  }

  /** Saving keeps every tip in normal shape. */
  lemma SaveKeepsNormal(tips: seq<RawTip>, index: int, textField: string, iconField: string)
    requires AllNormal(tips)
    ensures AllNormal(SaveTip(tips, index, textField, iconField).1)
  {
  }

  /** Saving the same fields twice is the same as saving them once. */
  lemma {:induction false} SaveIdempotent(tips: seq<RawTip>, index: int, textField: string, iconField: string)
    ensures var once := SaveTip(tips, index, textField, iconField).1;
            SaveTip(once, index, textField, iconField).1 == once
  {
    var once := SaveTip(tips, index, textField, iconField).1;
    if 0 <= index < |tips| && PyStrip(textField) != "" {
      var again := SaveTip(once, index, textField, iconField).1;
      assert |again| == |once|;
      forall j | 0 <= j < |once| ensures again[j] == once[j] {
      }
    }
  }

  /** The editor page. */
  class TipsEditor {
    var tips: seq<RawTip>
    var config: map<string, string>
    /** The texts of the list widget, one per tip. */
    var labels: seq<string>
    /** `current_index`: the selected row, -1 for none. Only the selection
        handler sets it, and it runs whenever the current row of the list
        changes, so it is also the list's current row. */
    var currentIndex: int

    /** The selected row, if any, is a tip. */
    ghost predicate Valid()
      reads this
    {
      -1 <= currentIndex < |tips|
    }

    constructor()
      ensures Valid()
      ensures tips == [] && config == map[] && labels == [] && currentIndex == -1
    {
      tips := [];
      config := map[];
      labels := [];
      currentIndex := -1;
    }

    /** `on_selection_changed` for a row of the list (-1 for none). */
    method SelectRow(row: int)
      requires row < |tips|
      modifies this
      ensures Valid()
      ensures currentIndex == (if row < 0 then -1 else row)
      ensures tips == old(tips) && config == old(config) && labels == old(labels)
    {
      currentIndex := if row < 0 then -1 else row;
    }

    /** `setCurrentRow`: the handler runs only when the current row changes. */
    method SetCurrentRow(row: int)
      requires -1 <= row < |tips| && currentIndex >= -1
      modifies this
      ensures Valid() && currentIndex == row
      ensures tips == old(tips) && config == old(config) && labels == old(labels)
    {
      if row != currentIndex {
        SelectRow(row);
      }
    }

    /** `refresh_list`: clearing the list takes away its current row, which
        runs the selection handler with -1; then one label per tip, in list
        order. */
    method RefreshList()
      requires currentIndex >= -1
      modifies this
      ensures Valid()
      ensures labels == Labels(tips, config) && currentIndex == -1
      ensures tips == old(tips) && config == old(config)
    {
      if currentIndex >= 0 {
        SelectRow(-1);
      }
      var shown := [];
      for i := 0 to |tips|
        invariant |shown| == i
        invariant forall k :: 0 <= k < i ==> shown[k] == Label(tips[k], config)
      {
        var t := tips[i];
        var text, icon;
        if t.TextTip? {
          text, icon := t.s, "";
        } else {
          text, icon := t.text.GetOr(""), t.icon.GetOr("");
        }
        var display := if |text| < 50 then text else text[..47] + "...";
        if icon == "" {
          icon := if "tip_icon" in config then config["tip_icon"] else MisencodedBulb;
        }
        shown := shown + [icon + " " + display];
      }
      labels := shown;
    }

    /** `load_data`: takes the list, normalises every element where it
        stands, takes the config and rebuilds the labels, which leaves no
        row selected. */
    method LoadData(newTips: seq<RawTip>, newConfig: map<string, string>)
      requires Valid()
      modifies this
      ensures Valid()
      ensures tips == NormalizeAll(newTips) && config == newConfig
      ensures labels == Labels(tips, config) && currentIndex == -1
    {
      var ts := newTips;
      for i := 0 to |ts|
        invariant |ts| == |newTips|
        invariant forall k :: 0 <= k < i ==> ts[k] == Normalize(newTips[k])
        invariant forall k :: i <= k < |ts| ==> ts[k] == newTips[k]
      {
        var t := ts[i];
        if t.TextTip? {
          ts := ts[i := DictTip(Some(t.s), Some(""))];
        } else {
          if t.text.None? {
            t := t.(text := Some(""));
          }
          if t.icon.None? {
            t := t.(icon := Some(""));
          }
          ts := ts[i := t];
        }
      }
      tips := ts;
      config := newConfig;
      RefreshList();
    }

    /** `add_tip`: appends an object tip "New Tip" and selects it. */
    method AddTip()
      requires Valid()
      modifies this
      ensures Valid()
      ensures tips == old(tips) + [DictTip(Some("New Tip"), Some(""))]
      ensures labels == Labels(tips, config) && config == old(config)
      ensures currentIndex == |tips| - 1
    {
      tips := tips + [DictTip(Some("New Tip"), Some(""))];
      RefreshList();
      SetCurrentRow(|tips| - 1);
    }

    /** `delete_tip`: with a current row and a confirmation, removes that
        tip; the rebuilt list has no current row. Otherwise nothing changes. */
    method DeleteTip(confirmed: bool)
      requires Valid()
      modifies this
      ensures Valid() && config == old(config)
      ensures old(currentIndex) >= 0 && confirmed ==>
                tips == old(tips)[..old(currentIndex)] + old(tips)[old(currentIndex) + 1..]
                && labels == Labels(tips, config) && currentIndex == -1
      ensures !(old(currentIndex) >= 0 && confirmed) ==>
                tips == old(tips) && labels == old(labels) && currentIndex == old(currentIndex)
    {
      var row := currentIndex;
      if row < 0 {
        return;
      }
      if confirmed {
        tips := tips[..row] + tips[row + 1..];
        RefreshList();
      }
    }

    /** `save_current`, given the raw text of the tip field and the icon
        field. A successful save rebuilds the list, which resets the current
        index to -1 before the reselection reads it, so no row is selected
        afterwards. */
    method SaveCurrent(textField: string, iconField: string) returns (outcome: TipSaveOutcome)
      requires Valid()
      modifies this
      ensures Valid() && config == old(config)
      ensures (outcome, tips) == SaveTip(old(tips), old(currentIndex), textField, iconField)
      ensures outcome != IndexOutOfRange
      ensures outcome == Saved ==> labels == Labels(tips, config) && currentIndex == -1
      ensures outcome != Saved ==> labels == old(labels) && currentIndex == old(currentIndex)
    {
      if currentIndex < 0 {
        return NoSelection;
      }
      var text := PyStrip(textField);
      var icon := PyStrip(iconField);
      if text == "" {
        return EmptyText;
      }
      tips := tips[currentIndex := DictTip(Some(text), Some(icon))];
      RefreshList();
      SetCurrentRow(currentIndex);
      outcome := Saved;
    }
  }
}
