/**
 * The scene form (`Form`): its layout, its current checklist and the tag
 * ids of the scene last fetched. "Get Scene" rebuilds the checklist
 * (`add_checkboxes`) and "Set tags" submits the scene's tags plus the
 * ticked ones (`send_tags`). Server replies are parameters: the tag ids of
 * the fetched scene, and whether the update was answered OK.
 */
module SceneForm {
  import opened Wrappers
  import opened Checklist
  import opened FormLayout

  class Form {
    /** The resolved templates the form was opened with. */
    const templates: map<string, map<int, string>>
    /** The widgets of the layout, top to bottom. */
    var layout: seq<Widget>
    /** The current checklist, in the order its boxes were created. */
    var checkboxes: seq<TagBox>
    /** The keys of the scene's tag dictionary, in response order. */
    var sceneTagIds: seq<int>
    /** Whether a scene has been fetched, so that `sceneTagIds` exists at all. */
    var sceneLoaded: bool
    /** How many success labels the bottom of the layout holds. */
    ghost var successLabels: nat

    /**
     * The layout is the fixed widgets with the checklist between
     * "Get Scene" and "Set tags" and the success labels below; the
     * checklist never repeats a tag or offers one the scene already has.
     */
    ghost predicate Valid()
      reads this
    {
      && layout == Layout(checkboxes, successLabels)
      && (sceneLoaded || checkboxes == [])
      && NoDuplicates(sceneTagIds)
      && DistinctIds(checkboxes)
      && (forall i :: 0 <= i < |checkboxes| ==> checkboxes[i].id !in sceneTagIds)
    }

    /** The form as first shown: no checklist, no scene fetched yet. */
    constructor (templates: map<string, map<int, string>>)
      ensures Valid()
      ensures this.templates == templates
      ensures layout == [Label("Select Template:"), Combo, Label("Scene ID:"), Edit,
                         Button("Get Scene"), Button("Set tags"), Stretch]
      ensures checkboxes == [] && !sceneLoaded && successLabels == 0
    {
      this.templates := templates;
      layout := Head() + Tail();
      checkboxes := [];
      sceneTagIds := [];
      sceneLoaded := false;
      successLabels := 0;
    }

    /**
     * `cleanup`: walks the layout from the bottom, removing the bottom
     * widget if it is a label and then every checkbox.
     */
    method Cleanup()
      requires |layout| > 0
      modifies this`layout
      ensures layout == Cleaned(old(layout))
    {
      var index := |layout| - 1;
      if layout[index].Label? {
        layout := layout[..index];
        index := index - 1;
      }
      ghost var kept := layout;
      assert kept[..index + 1] == kept && kept[index + 1..] == [];
      while index >= 0
        invariant -1 <= index < |kept|
        invariant layout == kept[..index + 1] + DropCheckBoxes(kept[index + 1..])
      {
        DropCheckBoxesStep(kept, index);
        if layout[index].CheckBox? {
          layout := layout[..index] + layout[index + 1..];
        }
        index := index - 1;
      }
      assert index == -1;
      assert kept[..0] == [];
      assert kept[0..] == kept;
    }

    /**
     * `add_checkboxes` ("Get Scene"): clears the checklist and the bottom
     * success label, records the fetched scene's tag ids, and adds one box
     * per template tag the scene lacks, in descending name order, each
     * inserted at the same layout index. A template name the form does not
     * know fails (`ok` is false) after the clearing and the fetch.
     */
    method AddCheckboxes(template: string, sceneResponse: seq<int>) returns (ok: bool)
      requires Valid()
      modifies this
      ensures Valid()
      ensures sceneLoaded && sceneTagIds == SceneTagKeys(sceneResponse)
      ensures successLabels == if old(successLabels) > 0 then old(successLabels) - 1 else 0
      ensures ok == (template in templates)
      ensures !ok ==> checkboxes == []
      ensures ok ==> Enumerates(checkboxes, FilterOutIds(templates[template], sceneTagIds))
      ensures ok ==> SortedDesc(checkboxes)
    {
      CleanupOfLayout(checkboxes, successLabels);
      Cleanup();
      checkboxes := [];
      successLabels := if successLabels > 0 then successLabels - 1 else 0;
      sceneTagIds := SceneTagKeys(sceneResponse);
      sceneLoaded := true;
      if template !in templates {
        return false;
      }
      var tags := FilterOutIds(templates[template], sceneTagIds);
      var sorted := SortByNameDesc(tags);
      var boxes: seq<TagBox> := [];
      var ws := layout;
      for i := 0 to |sorted|
        modifies {}
        invariant boxes == sorted[..i]
        invariant ws == Layout(boxes, successLabels)
      {
        assert sorted[..i + 1][..i] == sorted[..i];
        InsertBoxWidget(boxes, sorted[i], successLabels);
        boxes := boxes + [sorted[i]];
        ws := ws[..CHECKBOX_INDEX] + [CheckBox(sorted[i].name)] + ws[CHECKBOX_INDEX..];
      }
      assert sorted[..|sorted|] == sorted;
      checkboxes, layout := boxes, ws;
      forall i | 0 <= i < |checkboxes|
        ensures checkboxes[i].id !in sceneTagIds
      {
        assert checkboxes[i] == sorted[i] && sorted[i].id in tags;
      }
      return true;
    }

    /**
     * `send_tags` ("Set tags"): sends the scene's tag ids followed by the
     * ids of the ticked boxes, in checklist order, and appends a success
     * label when the update is answered OK. Before any scene has been
     * fetched there are no scene tag ids and nothing is sent.
     */
    method SendTags(ticked: set<int>, responseOk: bool) returns (sent: Option<seq<int>>)
      requires Valid()
      modifies this`layout, this`successLabels
      ensures Valid()
      ensures sent == if sceneLoaded then Some(sceneTagIds + TickedIds(checkboxes, ticked)) else None
      ensures successLabels == old(successLabels) + (if sent.Some? && responseOk then 1 else 0)
      ensures sent.Some? ==> NoDuplicates(sent.value)
      ensures sent.Some? ==> forall x :: x in sent.value <==>
                               x in sceneTagIds || (x in ticked && exists i :: 0 <= i < |checkboxes| && checkboxes[i].id == x)
    {
      if !sceneLoaded {
        return None;
      }
      var tagsToSend := sceneTagIds;
      for i := 0 to |checkboxes|
        invariant tagsToSend == sceneTagIds + TickedIds(checkboxes[..i], ticked)
      {
        assert checkboxes[..i + 1][..i] == checkboxes[..i];
        if checkboxes[i].id in ticked {
          tagsToSend := tagsToSend + [checkboxes[i].id];
        }
      }
      assert checkboxes[..|checkboxes|] == checkboxes;
      SentIds(sceneTagIds, checkboxes, ticked);
      sent := Some(tagsToSend);
      if responseOk {
        layout := layout + [Label(SUCCESS_TEXT)];
        successLabels := successLabels + 1;
        assert Successes(successLabels) == Successes(successLabels - 1) + [Label(SUCCESS_TEXT)];
      }
    }
  }
}
