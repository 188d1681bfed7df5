/** The organizer's persisted progress, `OrganizeState`, and how it is
    written to and read back from its JSON state file. */
module OrganizeStates {
  import opened Wrappers
  import opened Dicts
  import opened Json
  import opened Models
  import opened Resume

  /** Progress of the organize pipeline, bound to one export file: the legacy
      collections already flattened and deleted, the flat collections created
      (English name -> id), and per collection id the managed recipes already
      removed from it. */
  datatype OrganizeState = OrganizeState(
    exportFile: string,
    flattened: set<string>,
    created: ODict<Option<string>>,
    removed: ODict<set<string>>,
    deleted: set<string>)
  {
    function ToDict(): Dict {
      [("export_file", Str(exportFile)),
       ("flattened_collections", SetValue(flattened)),
       ("created_collections", Obj(MapValues(created, IdValue))),
       ("removed_managed_recipes", Obj(MapValues(removed, SetValue))),
       ("deleted_collections", SetValue(deleted))]
    }

    /** Each key of the dict reads back its own entry. */
    lemma Lookup(i: nat)
      requires i < |ToDict()|
      ensures Get(ToDict(), ToDict()[i].0) == Some(ToDict()[i].1)
    {
      assert Keys(ToDict()) == OrganizeKeys;
      OrganizeKeysDistinct();
      GetAt(ToDict(), i);
    }

    /** The managed recipes recorded as removed from collection `id`. */
    function RemovedFrom(id: string): set<string> {
      Get(removed, id).GetOr({})
    }
  }

  /** The keys `OrganizeState.to_dict` writes, in its order. */
  const OrganizeKeys: seq<string> :=
    ["export_file", "flattened_collections", "created_collections", "removed_managed_recipes", "deleted_collections"]

  lemma OrganizeKeysDistinct()
    ensures forall i, j | 0 <= i < j < |OrganizeKeys| :: OrganizeKeys[i] != OrganizeKeys[j]
  {
    var lengths := [11, 21, 19, 23, 19];
    assert forall i | 0 <= i < 5 :: |OrganizeKeys[i]| == lengths[i];
    assert OrganizeKeys[2][0] == 'c' && OrganizeKeys[4][0] == 'd';
  }

  /** `OrganizeState(export_file=f)`: nothing done yet. */
  function FreshOrganizeState(exportFile: string): OrganizeState {
    OrganizeState(exportFile, {}, [], [], {})
  }

  /** `set(data.get(key, []))` of a JSON array of strings. */
  function OptionalSet(data: Dict, key: string): Option<set<string>> {
    match Get(data, key)
    case None => Some({})
    case Some(v) => AsSet(v)
  }

  /** "removed_managed_recipes": a map from collection id to a list of
      recipe ids, or, in the old format, a plain list, which is dropped so
      that the removals are done again. */
  function RemovedFromJson(data: Dict): (r: Option<ODict<set<string>>>)
    ensures Get(data, "removed_managed_recipes").Some? && Get(data, "removed_managed_recipes").value.Arr? ==> r == Some([])
  {
    var v := Get(data, "removed_managed_recipes");
    if v.None? || v.value.Arr? then Some([])
    else if v.value.Obj? then AsODict(v.value.fields, AsSet)
    else None
  }

  /** `OrganizeState.from_dict`. `None` is the `KeyError` of a missing
      "export_file", or a field of another JSON type than the state's. */
  function OrganizeStateFromDict(data: Dict): (r: Option<OrganizeState>)
    ensures r.Some? ==> Get(data, "export_file") == Some(Str(r.value.exportFile))
    ensures r.Some? ==> OptionalSet(data, "flattened_collections") == Some(r.value.flattened)
    ensures r.Some? ==> RemovedFromJson(data) == Some(r.value.removed)
  {
    match (GetStr(data, "export_file"), OptionalSet(data, "flattened_collections"),
           OptionalODict(data, "created_collections", AsId), RemovedFromJson(data),
           OptionalSet(data, "deleted_collections"))
    case (Some(f), Some(flattened), Some(created), Some(removed), Some(deleted)) =>
      Some(OrganizeState(f, flattened, created, removed, deleted))
    case _ => None
  }

  /** `from_dict(s.to_dict()) == s`: the sets survive the set -> list -> set
      conversion and the maps keep their keys, order and values. */
  lemma OrganizeStateRoundTrip(s: OrganizeState)
    ensures OrganizeStateFromDict(s.ToDict()) == Some(s)
  {
    WrittenFieldsReadBack(s);
    RemovalsReadBack(s);
    FromDictOfFields(s.ToDict(), s, s.removed);
  }

  lemma RemovalsReadBack(s: OrganizeState)
    ensures RemovedFromJson(s.ToDict()) == Some(s.removed)
  {
    s.Lookup(3);
    RemovalsOfObject(s.ToDict(), s.removed);
  }

  lemma RemovalsOfObject(data: Dict, removed: ODict<set<string>>)
    requires Get(data, "removed_managed_recipes") == Some(Obj(MapValues(removed, SetValue)))
    ensures RemovedFromJson(data) == Some(removed)
  {
    SetValuesRoundTrip();
    AsODictMapValues(removed, SetValue, AsSet);
  }

  /** The fields other than the removals read back from a written state. */
  lemma WrittenFieldsReadBack(s: OrganizeState)
    ensures Get(s.ToDict(), "export_file") == Some(Str(s.exportFile))
    ensures OptionalSet(s.ToDict(), "flattened_collections") == Some(s.flattened)
    ensures OptionalODict(s.ToDict(), "created_collections", AsId) == Some(s.created)
    ensures OptionalSet(s.ToDict(), "deleted_collections") == Some(s.deleted)
  {
    s.Lookup(0);
    s.Lookup(1);
    SetValueRoundTrip(s.flattened);
    s.Lookup(2);
    IdValueRoundTrip();
    AsODictMapValues(s.created, IdValue, AsId);
    s.Lookup(4);
    SetValueRoundTrip(s.deleted);
  }

  lemma FromDictOfFields(data: Dict, s: OrganizeState, removed: ODict<set<string>>)
    requires Get(data, "export_file") == Some(Str(s.exportFile))
    requires OptionalSet(data, "flattened_collections") == Some(s.flattened)
    requires OptionalODict(data, "created_collections", AsId) == Some(s.created)
    requires RemovedFromJson(data) == Some(removed)
    requires OptionalSet(data, "deleted_collections") == Some(s.deleted)
    ensures OrganizeStateFromDict(data) == Some(s.(removed := removed))
  {
  }

  lemma SetValuesRoundTrip()
    ensures forall ids :: AsSet(SetValue(ids)) == Some(ids)
  {
    forall ids ensures AsSet(SetValue(ids)) == Some(ids) {
      SetValueRoundTrip(ids);
    }
  }

  /** A state file whose removals are in the old list format reads back with
      no removals recorded, and everything else as written. */
  lemma OrganizeStateOldFormat(s: OrganizeState, items: seq<Json.Value>)
    ensures OrganizeStateFromDict(Put(s.ToDict(), "removed_managed_recipes", Arr(items))) == Some(s.(removed := []))
  {
    WrittenFieldsReadBack(s);
    ListOfRemovalsDropped(s.ToDict(), s, items);
  }

  lemma ListOfRemovalsDropped(written: Dict, s: OrganizeState, items: seq<Json.Value>)
    requires Get(written, "export_file") == Some(Str(s.exportFile))
    requires OptionalSet(written, "flattened_collections") == Some(s.flattened)
    requires OptionalODict(written, "created_collections", AsId) == Some(s.created)
    requires OptionalSet(written, "deleted_collections") == Some(s.deleted)
    ensures OrganizeStateFromDict(Put(written, "removed_managed_recipes", Arr(items))) == Some(s.(removed := []))
  {
    var data := Put(written, "removed_managed_recipes", Arr(items));
    assert Get(data, "export_file") == Get(written, "export_file");
    assert Get(data, "flattened_collections") == Get(written, "flattened_collections");
    assert Get(data, "created_collections") == Get(written, "created_collections");
    assert Get(data, "deleted_collections") == Get(written, "deleted_collections");
    FromDictOfFields(data, s, []);
  }

  /** Missing optional keys read as empty sets and maps. */
  lemma OrganizeStateDefaults(f: string)
    ensures OrganizeStateFromDict([("export_file", Str(f))]) == Some(FreshOrganizeState(f))
  {
  }

  /** `_load_state` of the organizer. */
  function LoadOrganizeState(exportFile: string, saved: SavedFile): Outcome<OrganizeState> {
    LoadState(exportFile, saved, OrganizeStateFromDict, FreshOrganizeState(exportFile))
  }

  /** A state saved for the same export file is taken up again as it was. */
  lemma ResumeOrganizeState(s: OrganizeState)
    ensures LoadOrganizeState(s.exportFile, Document(Obj(s.ToDict()))) == Returned(s)
  {
    s.Lookup(0);
    OrganizeStateRoundTrip(s);
  }

  /** A state saved for another export file is ignored. */
  lemma OtherExportStartsFresh(f: string, s: OrganizeState)
    requires s.exportFile != f
    ensures LoadOrganizeState(f, Document(Obj(s.ToDict()))) == Returned(FreshOrganizeState(f))
  {
    s.Lookup(0);
  }
}
