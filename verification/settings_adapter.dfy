/** The pure logic of the common settings list: which view type an item gets,
    which holder a view type gets, what a holder shows for an item, what
    selecting an item reports, and how the sections are flattened on reload. */
module SettingsAdapter {
  import opened Wrappers

  datatype Representation = SwitchRepresentation | CheckmarkRepresentation

  /** The settings item kinds the adapter knows, plus `OtherItem` for kinds it
      leaves to its base adapter. A dynamic list item carries the rows its
      `createItems()` produces. */
  datatype SettingsItem =
    | SliderItem(name: string, key: string, minValue: real, maxValue: real)
    | ActionItem(name: string, action: int)
    | PreferenceSwitchItem(name: string, key: string, subtitle: Option<string>, defaultOn: bool)
    | UnknownTextItem(name: string, id: int)
    | SwitchItem(name: string, key: string, representation: Representation, volatile: bool)
    | PreferenceSelectionItem(name: string, key: string, options: seq<(int, string)>, defaultSelection: int)
    | SelectionSingleItem(name: string, key: string, options: seq<(int, string)>, defaultSelection: int, showTitle: bool)
    | DynamicListItem(created: seq<SettingsItem>)
    | OtherItem(kind: nat)

  /** The adapter's state queries; each answer may be missing. */
  datatype DataSource = DataSource(
    sliderValue: string -> Option<real>,
    selectionValue: string -> Option<int>,
    preferenceSelectionState: string -> Option<int>,
    preferenceSwitchState: string -> Option<bool>,
    switchState: string -> Option<bool>)

  // ---------------------------------------------------------------------------
  // View types and holders

  const ItemSlider: int := 0
  const ItemAction: int := 1
  const ItemPrefSwitch: int := 2
  const ItemSwitch: int := 3
  const ItemCheckmark: int := 4
  const ItemUnknownText: int := 5
  const ItemPrefSelection: int := 6
  const ItemSingleSelection: int := 7

  /** The eight view-type codes are pairwise distinct and are exactly 0..7. */
  lemma ViewTypeCodesDistinct()
    ensures var codes := [ItemSlider, ItemAction, ItemPrefSwitch, ItemSwitch,
                          ItemCheckmark, ItemUnknownText, ItemPrefSelection, ItemSingleSelection];
            && (forall i, j :: 0 <= i < j < |codes| ==> codes[i] != codes[j])
            && (forall i :: 0 <= i < |codes| ==> 0 <= codes[i] <= 7)
  {
  }

  /** A view type chosen by this adapter, or one left to the base adapter. */
  datatype ViewType = Own(code: int) | Inherited

  /** The view type of an item. A switch item is drawn as a switch or as a
      checkmark according to its representation. */
  function ItemViewType(item: SettingsItem): (r: ViewType)
    ensures r.Inherited? <==> item.DynamicListItem? || item.OtherItem?
    ensures r.Own? ==> 0 <= r.code <= 7
    ensures item.SwitchItem? ==>
              (r == Own(ItemSwitch) <==> item.representation == SwitchRepresentation)
              && (r == Own(ItemCheckmark) <==> item.representation == CheckmarkRepresentation)
  {
    match item
    case SliderItem(_, _, _, _) => Own(ItemSlider)
    case ActionItem(_, _) => Own(ItemAction)
    case PreferenceSwitchItem(_, _, _, _) => Own(ItemPrefSwitch)
    case UnknownTextItem(_, _) => Own(ItemUnknownText)
    case SwitchItem(_, _, rep, _) =>
      (match rep
       case SwitchRepresentation => Own(ItemSwitch)
       case CheckmarkRepresentation => Own(ItemCheckmark))
    case PreferenceSelectionItem(_, _, _, _) => Own(ItemPrefSelection)
    case SelectionSingleItem(_, _, _, _, _) => Own(ItemSingleSelection)
    case DynamicListItem(_) => Inherited
    case OtherItem(_) => Inherited
  }

  /** Items of the same own view type are of the same kind, and switch items
      share it only when they share their representation. */
  lemma ViewTypeDeterminesKind(a: SettingsItem, b: SettingsItem)
    requires ItemViewType(a).Own? && ItemViewType(a) == ItemViewType(b)
    ensures a.SliderItem? <==> b.SliderItem?
    ensures a.ActionItem? <==> b.ActionItem?
    ensures a.PreferenceSwitchItem? <==> b.PreferenceSwitchItem?
    ensures a.UnknownTextItem? <==> b.UnknownTextItem?
    ensures a.SwitchItem? <==> b.SwitchItem?
    ensures a.SwitchItem? ==> a.representation == b.representation
    ensures a.PreferenceSelectionItem? <==> b.PreferenceSelectionItem?
    ensures a.SelectionSingleItem? <==> b.SelectionSingleItem?
  {
  }

  datatype HolderKind =
    | SliderHolder | RadioButtonHolder | CommonTextHolder | SwitchHolder | CheckboxHolder | BaseHolder

  /** The holder created for a view type. Plain action, unknown-text and
      preference-selection rows share the text holder; preference switches and
      switches share the switch holder; codes this adapter does not own go to
      the base adapter. */
  function CreateVH(viewType: int): (r: HolderKind)
    ensures r == CommonTextHolder <==> viewType in {ItemAction, ItemUnknownText, ItemPrefSelection}
    ensures r == SwitchHolder <==> viewType in {ItemPrefSwitch, ItemSwitch}
    ensures r == BaseHolder <==> !(0 <= viewType <= 7)
  {
    if viewType == ItemSlider then SliderHolder
    else if viewType == ItemSingleSelection then RadioButtonHolder
    else if viewType == ItemAction || viewType == ItemUnknownText || viewType == ItemPrefSelection then CommonTextHolder
    else if viewType == ItemPrefSwitch || viewType == ItemSwitch then SwitchHolder
    else if viewType == ItemCheckmark then CheckboxHolder
    else BaseHolder
  }

  // ---------------------------------------------------------------------------
  // Binding

  /** The smaller / larger of two reals (Kotlin's `min` / `max`). */
  function Min(a: real, b: real): real { if a <= b then a else b }
  function Max(a: real, b: real): real { if a >= b then a else b }

  /** The slider position: the value pulled into [lo, hi] so that it never
      exceeds the slider's range. */
  function Clamp(lo: real, hi: real, v: real): (r: real)
    ensures lo <= hi ==> lo <= r <= hi
    ensures lo <= v <= hi ==> r == v
    ensures v < lo ==> r == lo
    ensures lo <= hi < v ==> r == hi
    ensures hi < lo ==> r == lo
  {
    Max(lo, Min(hi, v))
  }

  /** Clamping an already clamped value changes nothing. */
  lemma ClampIdempotent(lo: real, hi: real, v: real)
    ensures Clamp(lo, hi, Clamp(lo, hi, v)) == Clamp(lo, hi, v)
  {
  }

  /** Index of the first option whose key is `selected`, or -1. */
  function IndexOfFirst(options: seq<(int, string)>, selected: int): (r: int)
    ensures -1 <= r < |options|
    ensures r == -1 <==> forall j :: 0 <= j < |options| ==> options[j].0 != selected
    ensures r >= 0 ==> options[r].0 == selected && forall j :: 0 <= j < r ==> options[j].0 != selected
    decreases |options|
  {
    if |options| == 0 then -1
    else if options[0].0 == selected then 0
    else
      var k := IndexOfFirst(options[1..], selected);
      if k < 0 then -1 else k + 1
  }

  /** The label of the first option whose key is `selected`, if any
      (Kotlin's `firstOrNull { ... }?.second`). */
  function FirstLabel(options: seq<(int, string)>, selected: int): (r: Option<string>)
    ensures r.None? <==> forall j :: 0 <= j < |options| ==> options[j].0 != selected
    ensures r.Some? ==> exists j :: 0 <= j < |options| && options[j].0 == selected && r.value == options[j].1
    decreases |options|
  {
    if |options| == 0 then None
    else if options[0].0 == selected then Some(options[0].1)
    else
      var rest := options[1..];
      assert forall j :: 0 <= j < |rest| ==> rest[j] == options[j + 1];
      FirstLabel(rest, selected)
  }

  /** The detail text and the checked index pick the same option: the label
      shown is that of the option at the checked index, and "" when there is
      none. */
  lemma {:induction false} FirstLabelAtIndexOfFirst(options: seq<(int, string)>, selected: int)
    ensures var k := IndexOfFirst(options, selected);
            FirstLabel(options, selected) == (if k >= 0 then Some(options[k].1) else None)
    decreases |options|
  {
    if |options| > 0 && options[0].0 != selected {
      FirstLabelAtIndexOfFirst(options[1..], selected);
    }
  }

  /** The label shown as detail of a preference selection row. */
  function DetailText(options: seq<(int, string)>, selected: int): (r: string)
    ensures (exists j :: 0 <= j < |options| && options[j].0 == selected) ==>
              r == options[IndexOfFirst(options, selected)].1
    ensures (forall j :: 0 <= j < |options| ==> options[j].0 != selected) ==> r == ""
  {
    FirstLabelAtIndexOfFirst(options, selected);
    FirstLabel(options, selected).GetOr("")
  }

  /** A data source answer, or the fallback when there is no data source or
      no answer (Kotlin's `dataSource?.query(key) ?: fallback`). */
  function Ask<T>(ds: Option<DataSource>, query: DataSource -> (string -> Option<T>), key: string, fallback: T): (r: T)
    ensures ds.None? ==> r == fallback
    ensures ds.Some? && query(ds.value)(key).Some? ==> r == query(ds.value)(key).value
    ensures ds.Some? && query(ds.value)(key).None? ==> r == fallback
  {
    if ds.None? then fallback else query(ds.value)(key).GetOr(fallback)
  }

  /** The current state of a switch item: false without a data source. */
  function SwitchState(ds: Option<DataSource>, key: string): bool
  {
    Ask(ds, (d: DataSource) => d.switchState, key, false)
  }

  /** What a holder ends up showing. */
  datatype Binding =
    | SliderBinding(title: string, valueFrom: real, valueTo: real, value: real)
    | RadioBinding(text: string, showTitle: bool, labels: seq<string>, checkedIndex: int)
    | TextBinding(title: string, detail: Option<string>)
    | SwitchBinding(title: string, subtitle: Option<string>, checked: bool)
    | CheckboxBinding(text: string, checked: bool)
    | Untouched
    | BaseBinding

  function Labels(options: seq<(int, string)>): (r: seq<string>)
    ensures |r| == |options| && forall j :: 0 <= j < |options| ==> r[j] == options[j].1
  {
    seq(|options|, j requires 0 <= j < |options| => options[j].1)
  }

  /** Binds an item to a holder. A text or switch holder given an item it has
      no case for is left as it was; any other mismatch goes to the base
      adapter. */
  function BindVH(holder: HolderKind, item: SettingsItem, ds: Option<DataSource>): (r: Binding)
    ensures holder == SliderHolder && item.SliderItem? ==>
              r == SliderBinding(item.name, item.minValue, item.maxValue,
                                 Clamp(item.minValue, item.maxValue,
                                       Ask(ds, (d: DataSource) => d.sliderValue, item.key, 0.0)))
    ensures holder == SliderHolder && item.SliderItem? ==>
              && r.SliderBinding? && r.title == item.name
              && r.valueFrom == item.minValue && r.valueTo == item.maxValue
              && (item.minValue <= item.maxValue ==> item.minValue <= r.value <= item.maxValue)
              && (item.minValue <= Ask(ds, (d: DataSource) => d.sliderValue, item.key, 0.0) <= item.maxValue ==>
                    r.value == Ask(ds, (d: DataSource) => d.sliderValue, item.key, 0.0))
    ensures holder == RadioButtonHolder && item.SelectionSingleItem? ==>
              var selected := Ask(ds, (d: DataSource) => d.selectionValue, item.key, item.defaultSelection);
              && r.RadioBinding? && r.text == item.name && r.showTitle == item.showTitle
              && r.labels == Labels(item.options)
              && r.checkedIndex == IndexOfFirst(item.options, selected)
              && -1 <= r.checkedIndex < |item.options|
              && (r.checkedIndex >= 0 <==> exists j :: 0 <= j < |item.options| && item.options[j].0 == selected)
              && (r.checkedIndex >= 0 ==> item.options[r.checkedIndex].0 == selected)
    ensures holder == CommonTextHolder && (item.ActionItem? || item.UnknownTextItem?) ==>
              r == TextBinding(item.name, None)
    ensures holder == CommonTextHolder && item.PreferenceSelectionItem? ==>
              var selected := Ask(ds, (d: DataSource) => d.preferenceSelectionState, item.key, item.defaultSelection);
              && r == TextBinding(item.name, Some(DetailText(item.options, selected)))
              && ((exists j :: 0 <= j < |item.options| && item.options[j].0 == selected) ==>
                    r.detail.value == item.options[IndexOfFirst(item.options, selected)].1)
              && ((forall j :: 0 <= j < |item.options| ==> item.options[j].0 != selected) ==> r.detail.value == "")
    ensures holder == SwitchHolder && item.PreferenceSwitchItem? ==>
              r == SwitchBinding(item.name, item.subtitle,
                                 Ask(ds, (d: DataSource) => d.preferenceSwitchState, item.key, item.defaultOn))
    ensures holder == SwitchHolder && item.SwitchItem? ==> r == SwitchBinding(item.name, None, SwitchState(ds, item.key))
    ensures holder == CheckboxHolder && item.SwitchItem? ==> r == CheckboxBinding(item.name, SwitchState(ds, item.key))
    ensures r == Untouched <==>
              || (holder == CommonTextHolder && !(item.ActionItem? || item.UnknownTextItem? || item.PreferenceSelectionItem?))
              || (holder == SwitchHolder && !(item.PreferenceSwitchItem? || item.SwitchItem?))
    ensures r == BaseBinding <==>
              && holder != CommonTextHolder && holder != SwitchHolder
              && !(holder == SliderHolder && item.SliderItem?)
              && !(holder == RadioButtonHolder && item.SelectionSingleItem?)
              && !(holder == CheckboxHolder && item.SwitchItem?)
  {
    match (holder, item)
    case (SliderHolder, SliderItem(name, key, lo, hi)) =>
      SliderBinding(name, lo, hi, Clamp(lo, hi, Ask(ds, (d: DataSource) => d.sliderValue, key, 0.0)))
    case (RadioButtonHolder, SelectionSingleItem(name, key, options, defaultSelection, showTitle)) =>
      var selected := Ask(ds, (d: DataSource) => d.selectionValue, key, defaultSelection);
      RadioBinding(name, showTitle, Labels(options), IndexOfFirst(options, selected))
    case (CommonTextHolder, ActionItem(name, _)) => TextBinding(name, None)
    case (CommonTextHolder, UnknownTextItem(name, _)) => TextBinding(name, None)
    case (CommonTextHolder, PreferenceSelectionItem(name, key, options, defaultSelection)) =>
      var selected := Ask(ds, (d: DataSource) => d.preferenceSelectionState, key, defaultSelection);
      TextBinding(name, Some(DetailText(options, selected)))
    case (CommonTextHolder, _) => Untouched
    case (SwitchHolder, PreferenceSwitchItem(name, key, subtitle, defaultOn)) =>
      SwitchBinding(name, subtitle, Ask(ds, (d: DataSource) => d.preferenceSwitchState, key, defaultOn))
    case (SwitchHolder, SwitchItem(name, key, _, _)) => SwitchBinding(name, None, SwitchState(ds, key))
    case (SwitchHolder, _) => Untouched
    case (CheckboxHolder, SwitchItem(name, key, _, _)) => CheckboxBinding(name, SwitchState(ds, key))
    case _ => BaseBinding
  }

  /** The holder created for an item's own view type is one that binds that
      item: nothing this adapter claims falls through to the base adapter or
      is left blank. */
  lemma CreatedHolderBindsItem(item: SettingsItem, ds: Option<DataSource>)
    requires ItemViewType(item).Own?
    ensures var r := BindVH(CreateVH(ItemViewType(item).code), item, ds);
            r != BaseBinding && r != Untouched
  {
  }

  // ---------------------------------------------------------------------------
  // Selection

  datatype SettingsEvent =
    | ActionSelected(action: int)
    | UnknownAction(id: int)
    | SwitchStateChanged(key: string, on: bool, volatile: bool)
    | SelectionRequested(key: string, options: seq<(int, string)>)

  /** What selecting an item reports to the listener, if anything. Only a
      checkmark switch reacts to a tap; a switch-drawn one reacts to its
      widget instead. */
  function OnItemSelected(item: SettingsItem, ds: Option<DataSource>): (r: Option<SettingsEvent>)
    ensures item.SwitchItem? && item.representation == CheckmarkRepresentation ==>
              r == Some(SwitchStateChanged(item.key, !SwitchState(ds, item.key), item.volatile))
    ensures item.SwitchItem? && item.representation == SwitchRepresentation ==> r.None?
    ensures item.ActionItem? ==> r == Some(ActionSelected(item.action))
    ensures item.UnknownTextItem? ==> r == Some(UnknownAction(item.id))
    ensures item.PreferenceSelectionItem? ==> r == Some(SelectionRequested(item.key, item.options))
    ensures r.Some? <==> item.ActionItem? || item.UnknownTextItem? || item.PreferenceSelectionItem?
                         || (item.SwitchItem? && item.representation == CheckmarkRepresentation)
  {
    match item
    case ActionItem(_, action) => Some(ActionSelected(action))
    case UnknownTextItem(_, id) => Some(UnknownAction(id))
    case SwitchItem(_, key, rep, volatile) =>
      if rep == CheckmarkRepresentation then Some(SwitchStateChanged(key, !SwitchState(ds, key), volatile))
      else None
    case PreferenceSelectionItem(_, key, options, _) => Some(SelectionRequested(key, options))
    case _ => None
  }

  /** Tapping a checkmark twice, with the data source recording the first
      report, reports the original state again. */
  lemma CheckmarkToggleTwice(item: SettingsItem, ds: DataSource, stored: DataSource)
    requires item.SwitchItem? && item.representation == CheckmarkRepresentation
    requires OnItemSelected(item, Some(ds)).Some?
    requires stored.switchState(item.key) == Some(OnItemSelected(item, Some(ds)).value.on)
    ensures OnItemSelected(item, Some(stored)).value.on == SwitchState(Some(ds), item.key)
  {
  }

  // ---------------------------------------------------------------------------
  // Reload

  datatype Section = Section(rows: seq<SettingsItem>, header: Option<string>, footer: Option<string>)

  /** Raised when a dynamic list item shares its section with other rows. */
  datatype ReloadError = DynamicListEmbedded

  /** A section made of exactly one dynamic list item. */
  predicate IsDynamicSection(s: Section)
  {
    |s.rows| == 1 && s.rows[0].DynamicListItem?
  }

  /** A section that reload accepts. */
  predicate ReloadsCleanly(s: Section)
  {
    IsDynamicSection(s) || forall j :: 0 <= j < |s.rows| ==> !s.rows[j].DynamicListItem?
  }

  /** Copies rows in order, failing at the first dynamic list item. */
  function CopyRows(rows: seq<SettingsItem>): (r: Result<seq<SettingsItem>, ReloadError>)
    ensures r.Success? <==> forall j :: 0 <= j < |rows| ==> !rows[j].DynamicListItem?
    ensures r.Success? ==> r.value == rows
    decreases |rows|
  {
    if |rows| == 0 then Success([])
    else if rows[0].DynamicListItem? then Failure(DynamicListEmbedded)
    else
      match CopyRows(rows[1..])
      case Failure(e) => Failure(e)
      case Success(rest) => Success([rows[0]] + rest)
  }

  /** One section of the reloaded list. */
  function ReloadSection(s: Section): (r: Result<Section, ReloadError>)
    ensures r.Success? <==> ReloadsCleanly(s)
    ensures r.Success? ==> r.value.header == s.header && r.value.footer == s.footer
    ensures r.Success? && IsDynamicSection(s) ==> r.value.rows == s.rows[0].created
    ensures r.Success? && !IsDynamicSection(s) ==> r.value.rows == s.rows
  {
    if IsDynamicSection(s) then Success(Section(s.rows[0].created, s.header, s.footer))
    else
      match CopyRows(s.rows)
      case Failure(e) => Failure(e)
      case Success(rows) => Success(Section(rows, s.header, s.footer))
  }

  /** Flattens the settings sections: one output section per input section, in
      order, with the same header and footer; a lone dynamic list item is
      replaced by the rows it creates; a dynamic list item anywhere else is an
      error. */
  method Reload(sections: seq<Section>) returns (r: Result<seq<Section>, ReloadError>)
    ensures r.Success? <==> forall i :: 0 <= i < |sections| ==> ReloadsCleanly(sections[i])
    ensures r.Success? ==> |r.value| == |sections|
    ensures r.Success? ==> forall i :: 0 <= i < |sections| ==>
              && r.value[i].header == sections[i].header
              && r.value[i].footer == sections[i].footer
              && (IsDynamicSection(sections[i]) ==> r.value[i].rows == sections[i].rows[0].created)
              && (!IsDynamicSection(sections[i]) ==> r.value[i].rows == sections[i].rows)
  {
    var results: seq<Section> := [];
    var i := 0;
    while i < |sections|
      invariant 0 <= i <= |sections|
      invariant |results| == i
      invariant forall k :: 0 <= k < i ==> ReloadsCleanly(sections[k])
      invariant forall k :: 0 <= k < i ==> ReloadSection(sections[k]) == Success(results[k])
    {
      var section := ReloadSection(sections[i]);
      if section.Failure? {
        return Failure(section.error);
      }
      results := results + [section.value];
      i := i + 1;
    }
    return Success(results);
  }
}
