/**
 * The single-shot inspector, `getOption` (main.js): list the CID the operator
 * typed, show every entry of the listing whatever its kind, offer the
 * inspector menu, and perform the chosen Save or Show on that same CID.
 */
module Inspector {
  import opened Wrappers
  import opened Listing
  import opened Actions
  import Navigation

  /** The operator's reply to the inspector menu, and the path typed on Save. */
  datatype Reply = Reply(action: Action, savePath: string)

  /** What one inspection shows and does; `StoreFailed` when `ls` threw. */
  datatype Report = StoreFailed | Inspected(shown: seq<string>, menu: seq<Choice>, effect: Option<Effect>)

  /** What the list prompt can return: a value of the menu offered for the listing's kind. */
  predicate Offered(files: seq<Entry>, r: Reply) {
    r.action in Values(InspectorMenu(CidType(files)))
  }

  /**
   * One inspection of `cid`, given what `ls(cid)` yielded. The log shows a
   * header line and then one line per entry, unconditionally; the menu is
   * the inspector menu for the listing's kind; Save writes `cid` to the
   * typed path, Show displays `cid`; Exit does nothing more.
   */
  function Inspect(cid: Cid, listing: Option<seq<Entry>>, r: Reply): (rep: Report)
    requires listing.Some? ==> Offered(listing.value, r)
    ensures rep.StoreFailed? <==> listing.None?
    ensures rep.Inspected? ==>
      |rep.shown| == |listing.value| + 1 && rep.shown[0] == "Contents: " &&
      forall i :: 0 <= i < |listing.value| ==> rep.shown[i + 1] == Describe(listing.value[i])
    ensures rep.Inspected? ==> rep.menu == InspectorMenu(CidType(listing.value))
    ensures rep.Inspected? ==> Enter !in Values(rep.menu) && Back !in Values(rep.menu)
    ensures rep.Inspected? ==> (rep.effect.None? <==> r.action == Exit)
    ensures rep.Inspected? && r.action == Save ==> rep.effect == Some(SaveToLocal(cid, r.savePath))
    ensures rep.Inspected? && r.action == Show ==> rep.effect == Some(ShowContents(cid))
    ensures rep.Inspected? && r.action == Show ==> CidType(listing.value) == File
  {
    match listing
    case None => StoreFailed
    case Some(files) =>
      var menu := InspectorMenu(CidType(files));
      var effect :=
        match r.action
        case Save => Some(SaveToLocal(cid, r.savePath))
        case Show => Some(ShowContents(cid))
        case _ => None;
      Inspected(["Contents: "] + Descriptions(files), menu, effect)
  }

  /** One line per entry, in listing order. */
  function Descriptions(files: seq<Entry>): (lines: seq<string>)
    ensures |lines| == |files|
    ensures forall i :: 0 <= i < |files| ==> lines[i] == Describe(files[i])
  {
    if files == [] then [] else [Describe(files[0])] + Descriptions(files[1..])
  }

  /**
   * Save and Show do in the inspector what they do in the navigator on the
   * same CID and listing.
   */
  lemma AgreesWithNavigator(cid: Cid, files: seq<Entry>, r: Reply, remembered: Cid)
    requires r.action == Save || r.action == Show
    requires Offered(files, r)
    ensures Navigation.Allowed(files, Navigation.Answer(r.action, 0, r.savePath))
    ensures var t := Navigation.Step(Navigation.NavState(cid, remembered), files, Navigation.Answer(r.action, 0, r.savePath));
      t.Continue? && Inspect(cid, Some(files), r).effect == Some(t.effects[0])
  {
    var k := CidType(files);
    assert r.action in Values(NavigatorMenu(k));
  }
}
