/**
 * The template loop of the config loader (`parse_yaml`): every entry of
 * the `Templates` section is classified by its shape. An id map is kept as
 * it is, a list of tag names is resolved to an id map with the tag lookup
 * client, and any other shape is skipped. Only the kept and resolved
 * templates are written back to the configuration file.
 */
module ConfigTemplates {
  import opened Wrappers
  import opened TagLookup

  /** The shape of one template value in the configuration file. */
  datatype TemplateValue =
    | IdMap(tags: map<int, string>)
    | NameList(names: seq<string>)
    | Unrecognized

  /** The `Templates` section in file order: template name and value. */
  type Section = seq<(string, TemplateValue)>

  /** The resolved templates (`TEMPLATES`): template name to id-to-name map. */
  type Templates = map<string, map<int, string>>

  /** No template name occurs twice (the section is a YAML mapping). */
  predicate DistinctNames(entries: Section)
  {
    forall i, j :: 0 <= i < j < |entries| ==> entries[i].0 != entries[j].0
  }

  /**
   * What the template loop leaves in `TEMPLATES`, entry by entry in file
   * order; a name list that cannot be resolved aborts the loader.
   */
  function TemplatesOf(entries: Section, search: string -> SearchResponse): Result<Templates, LookupError>
  {
    if entries == [] then Ok(map[])
    else
      match TemplatesOf(entries[..|entries| - 1], search)
      case Err(e) => Err(e)
      case Ok(t) => Classify(t, entries[|entries| - 1], search)
  }

  /** One iteration of the loop: the entry `(name, value)` applied to `t`. */
  function Classify(t: Templates, entry: (string, TemplateValue), search: string -> SearchResponse): Result<Templates, LookupError>
  {
    var (name, value) := entry;
    match value
    case IdMap(tags) => Ok(t[name := tags])
    case NameList(names) =>
      (match ResolveNames(names, search)
       case Err(e) => Err(e)
       case Ok(ids) => Ok(t[name := ids]))
    case Unrecognized => Ok(t)
  }

  /**
   * The tag names a complete run of the loop looks up, in order: exactly
   * the names of the name-list templates.
   */
  function Lookups(entries: Section): (r: seq<string>)
    ensures forall n :: n in r <==>
                        exists i :: 0 <= i < |entries| && entries[i].1.NameList? && n in entries[i].1.names
  {
    if entries == [] then []
    else
      var init := entries[..|entries| - 1];
      var value := entries[|entries| - 1].1;
      assert forall i :: 0 <= i < |init| ==> init[i] == entries[i];
      Lookups(init) + (if value.NameList? then value.names else [])
  }

  /**
   * The template loop of `parse_yaml`. Returns the new `TEMPLATES` (or the
   * lookup error that aborts the loader) and the tag names it queried: all
   * of `Lookups(entries)` on success, a prefix of them otherwise.
   */
  method ParseTemplates(entries: Section, search: string -> SearchResponse)
    returns (templates: Result<Templates, LookupError>, queried: seq<string>)
    ensures templates == TemplatesOf(entries, search)
    ensures templates.Ok? ==> queried == Lookups(entries)
    ensures queried <= Lookups(entries)
    ensures templates.Err? ==> |queried| > 0 && Lookup(search, queried[|queried| - 1]) == Err(templates.error)
                               && forall j :: 0 <= j < |queried| - 1 ==> Lookup(search, queried[j]).Ok?
  {
    var resolved: Templates := map[];
    queried := [];
    var i := 0;
    while i < |entries|
      invariant 0 <= i <= |entries|
      invariant TemplatesOf(entries[..i], search) == Ok(resolved)
      invariant queried == Lookups(entries[..i])
      invariant forall j :: 0 <= j < |queried| ==> Lookup(search, queried[j]).Ok?
    {
      assert entries[..i + 1][..i] == entries[..i];
      var name := entries[i].0;
      if entries[i].1.NameList? {
        var ids, q := GetTagIds(entries[i].1.names, search);
        ResolveNamesOkIff(entries[i].1.names, search);
        ghost var before := queried;
        queried := queried + q;
        QueriedLookups(before, q, search);
        if ids.Err? {
          templates := Err(ids.error);
          SectionErrorPropagates(entries, i + 1, search);
          LookupsMonotone(entries, i + 1);
          return;
        }
        resolved := resolved[name := ids.value];
      } else if entries[i].1.IdMap? {
        resolved := resolved[name := entries[i].1.tags];
      }
      i := i + 1;
    }
    assert entries[..i] == entries;
    templates := Ok(resolved);
  }

  /**
   * Appending the names of one template to the names queried so far: the
   * lookups that succeeded still succeed, and the new names keep their
   * outcome.
   */
  lemma QueriedLookups(before: seq<string>, q: seq<string>, search: string -> SearchResponse)
    ensures var all := before + q;
            forall j :: 0 <= j < |all| ==>
              Lookup(search, all[j]) == if j < |before| then Lookup(search, before[j]) else Lookup(search, q[j - |before|])
  {
  }

  /** Once a prefix of the section fails, the loader fails with the same error. */
  lemma {:induction false} SectionErrorPropagates(entries: Section, k: nat, search: string -> SearchResponse)
    requires k <= |entries|
    requires TemplatesOf(entries[..k], search).Err?
    ensures TemplatesOf(entries, search) == TemplatesOf(entries[..k], search)
  {
    if k < |entries| {
      var init := entries[..|entries| - 1];
      assert init[..k] == entries[..k];
      SectionErrorPropagates(init, k, search);
    } else {
      assert entries[..k] == entries;
    }
  }

  /** The lookups of a prefix of the section are a prefix of its lookups. */
  lemma {:induction false} LookupsMonotone(entries: Section, k: nat)
    requires k <= |entries|
    ensures Lookups(entries[..k]) <= Lookups(entries)
  {
    if k < |entries| {
      var init := entries[..|entries| - 1];
      assert init[..k] == entries[..k];
      LookupsMonotone(init, k);
    } else {
      assert entries[..k] == entries;
    }
  }

  /** The loader succeeds exactly when every name-list template resolves. */
  lemma {:induction false} TemplatesOfOkIff(entries: Section, search: string -> SearchResponse)
    ensures TemplatesOf(entries, search).Ok? <==>
            forall i :: 0 <= i < |entries| && entries[i].1.NameList? ==> ResolveNames(entries[i].1.names, search).Ok?
  {
    if entries != [] {
      var init := entries[..|entries| - 1];
      assert forall i :: 0 <= i < |init| ==> init[i] == entries[i];
      TemplatesOfOkIff(init, search);
    }
  }

  /**
   * Classification: with distinct template names, an id map is kept
   * unchanged, a name list is replaced by its resolved map, and an entry of
   * any other shape is absent from the result (and so from the rewritten
   * file). Nothing else is in the result.
   */
  lemma {:induction false} TemplatesOfClassifies(entries: Section, search: string -> SearchResponse)
    requires DistinctNames(entries)
    requires TemplatesOf(entries, search).Ok?
    ensures var t := TemplatesOf(entries, search).value;
            forall i :: 0 <= i < |entries| ==>
              match entries[i].1
              case IdMap(tags) => entries[i].0 in t && t[entries[i].0] == tags
              case NameList(names) =>
                ResolveNames(names, search).Ok? && entries[i].0 in t && t[entries[i].0] == ResolveNames(names, search).value
              case Unrecognized => entries[i].0 !in t
    ensures var t := TemplatesOf(entries, search).value;
            forall name :: name in t ==>
              exists i :: 0 <= i < |entries| && entries[i].0 == name && !entries[i].1.Unrecognized?
  {
    if entries != [] {
      var n := |entries| - 1;
      var init := entries[..n];
      assert forall i :: 0 <= i < |init| ==> init[i] == entries[i];
      TemplatesOfClassifies(init, search);
      var t0 := TemplatesOf(init, search).value;
      var t := TemplatesOf(entries, search).value;
      forall i | 0 <= i < n
        ensures entries[i].0 != entries[n].0
      {
      }
      forall name | name in t
        ensures exists i :: 0 <= i < |entries| && entries[i].0 == name && !entries[i].1.Unrecognized?
      {
        if name != entries[n].0 || entries[n].1.Unrecognized? {
          assert name in t0;
          var i :| 0 <= i < |init| && init[i].0 == name && !init[i].1.Unrecognized?;
          assert entries[i] == init[i];
        }
      }
    }
  }

  /** A section made only of id maps makes no lookups and keeps every name. */
  lemma {:induction false} IdMapsOnly(entries: Section, search: string -> SearchResponse)
    requires forall i :: 0 <= i < |entries| ==> entries[i].1.IdMap?
    ensures TemplatesOf(entries, search).Ok?
    ensures Lookups(entries) == []
    ensures forall name :: name in TemplatesOf(entries, search).value <==>
                           exists i :: 0 <= i < |entries| && entries[i].0 == name
  {
    if entries != [] {
      var n := |entries| - 1;
      var init := entries[..n];
      assert forall i :: 0 <= i < |init| ==> init[i] == entries[i];
      IdMapsOnly(init, search);
      var t := TemplatesOf(entries, search).value;
      forall name | exists i :: 0 <= i < |entries| && entries[i].0 == name
        ensures name in t
      {
        var i :| 0 <= i < |entries| && entries[i].0 == name;
        if i < n {
          assert init[i].0 == name;
        }
      }
    }
  }

  /** `entries` is a file section that lists the templates `t`, in any order. */
  predicate Lists(entries: Section, t: Templates)
  {
    && DistinctNames(entries)
    && (forall i :: 0 <= i < |entries| ==> entries[i].0 in t && entries[i].1 == IdMap(t[entries[i].0]))
    && (forall name :: name in t ==> exists i :: 0 <= i < |entries| && entries[i].0 == name)
  }

  /**
   * Rerunning the loader on the rewritten file (which lists only id maps,
   * in whatever order the writer chose) makes no lookups and yields the
   * same templates: resolution is idempotent.
   */
  lemma RerunIsIdentity(entries: Section, t: Templates, search: string -> SearchResponse)
    requires Lists(entries, t)
    ensures TemplatesOf(entries, search) == Ok(t)
    ensures Lookups(entries) == []
  {
    IdMapsOnly(entries, search);
    TemplatesOfClassifies(entries, search);
    var t' := TemplatesOf(entries, search).value;
    forall name | name in t
      ensures name in t' && t'[name] == t[name]
    {
      var i :| 0 <= i < |entries| && entries[i].0 == name;
      assert entries[i].1 == IdMap(t[name]);
    }
    forall name | name in t'
      ensures name in t
    {
      var i :| 0 <= i < |entries| && entries[i].0 == name;
    }
    assert t'.Keys == t.Keys;
    assert t' == t;
  }
}
