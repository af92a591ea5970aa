/**
  Reloading configurations while the service runs. A source keeps its id for as long as the process lives, so the
  set of sources the service loop relies on is fixed at start.
*/
module Reload {
  import opened Prelude
  import opened Names
  import opened Domain
  import opened Effects

  datatype ReloadError =
    | WorkflowError(message: string)
    | SourceIdChangeRequiresRestart
    | DuplicateSourceId(sourceId: string)
    | DuplicateSourceWorkspaceNamespace(segment: string)

  /** What the workflow file holds when it is read: a configuration that loads and validates, or an error. */
  type Workflow = Result<Config, ReloadError>

  /**
    What a look at a file comes to: nothing when its known time is the one last taken over; otherwise an error when it
    does not load or names another source, and else a reload.
  */
  function Verdict(file: Workflow, modified: Option<nat>, sourceId: string, lastModified: Option<nat>)
    : (r: Result<bool, ReloadError>)
    ensures r == Ok(false) <==> modified.Some? && modified == lastModified
    ensures r.Err? <==> (modified.None? || modified != lastModified) && (file.Ok? ==> file.value.sourceId != sourceId)
    ensures r.Err? ==> r.error == if file.Err? then file.error else SourceIdChangeRequiresRestart
  {
    if modified.Some? && modified == lastModified then Ok(false)
    else if file.Err? then Err(file.error)
    else if file.value.sourceId != sourceId then Err(SourceIdChangeRequiresRestart)
    else Ok(true)
  }

  class ConfigReloader {
    var lastGood: Config
    /** The file's modification time when it was last taken over, if known. */
    var lastModified: Option<nat>

    constructor (config: Config, modified: Option<nat>)
      ensures lastGood == config && lastModified == modified
    {
      lastGood, lastModified := config, modified;
    }

    /** Takes over what the file holds now; on any error, and on another source id, the last good one stays. */
    method ReloadNow(file: Workflow, modified: Option<nat>) returns (r: Result<Config, ReloadError>)
      modifies this
      ensures lastGood.sourceId == old(lastGood).sourceId
      ensures r.Ok? <==> file.Ok? && file.value.sourceId == old(lastGood).sourceId
      ensures r.Ok? ==> r.value == file.value == lastGood && lastModified == modified
      ensures r.Err? ==> lastGood == old(lastGood) && lastModified == old(lastModified)
      ensures r.Err? ==> r.error == if file.Err? then file.error else SourceIdChangeRequiresRestart
    {
      if file.Err? {
        return Err(file.error);
      }
      if file.value.sourceId != lastGood.sourceId {
        return Err(SourceIdChangeRequiresRestart);
      }
      lastModified := modified;
      lastGood := file.value;
      return Ok(lastGood);
    }

    /** Looks at the modification time first. A file whose time is unknown is always read again. */
    method ReloadIfChanged(file: Workflow, modified: Option<nat>, modifiedAfter: Option<nat>)
      returns (r: Result<bool, ReloadError>)
      modifies this
      ensures lastGood.sourceId == old(lastGood).sourceId
      ensures lastGood == if r == Ok(true) && file.Ok? then file.value else old(lastGood)
      ensures lastModified == if r == Ok(true) then modifiedAfter else old(lastModified)
      ensures r == Verdict(file, modified, old(lastGood).sourceId, old(lastModified))
    {
      if modified.Some? && modified == lastModified {
        return Ok(false);
      }
      var reloaded := ReloadNow(file, modifiedAfter);
      r := if reloaded.Ok? then Ok(true) else Err(reloaded.error);
    }
  }

  predicate Distinct(names: seq<string>) {
    forall i, j :: 0 <= i < j < |names| ==> names[i] != names[j]
  }

  function Namespaces(sourceIds: seq<string>): seq<string> {
    seq(|sourceIds|, i requires 0 <= i < |sourceIds| => Namespace(sourceIds[i]))
  }

  /** Two different ids have one namespace. */
  predicate SharedNamespace(sourceIds: seq<string>) {
    exists i, j :: 0 <= i < j < |sourceIds| && sourceIds[i] != sourceIds[j]
                   && Namespaces(sourceIds)[i] == Namespaces(sourceIds)[j]
  }

  /** Accepts sources that share neither an id nor a workspace directory. */
  method ValidateUniqueSourceIds(sourceIds: seq<string>) returns (r: Result<(), ReloadError>)
    ensures r.Ok? <==> Distinct(sourceIds) && Distinct(Namespaces(sourceIds))
    ensures r.Err? ==> match r.error
                       case DuplicateSourceId(id) =>
                         exists i, j :: 0 <= i < j < |sourceIds| && sourceIds[i] == sourceIds[j] == id
                       case DuplicateSourceWorkspaceNamespace(_) => SharedNamespace(sourceIds)
                       case _ => false
  {
    hide Namespace;
    var ids: set<string> := {};
    var segments: set<string> := {};
    ghost var names := Namespaces(sourceIds);
    for n := 0 to |sourceIds|
      invariant ids == Members(sourceIds[..n]) && segments == Members(names[..n])
      invariant forall i, j :: 0 <= i < j < n ==> sourceIds[i] != sourceIds[j]
      invariant forall i, j :: 0 <= i < j < n ==> names[i] != names[j]
    {
      var id := sourceIds[n];
      MembersOfPrefix(sourceIds, n);
      MembersOfPrefix(names, n);
      if id in ids {
        return Err(DuplicateSourceId(id));
      }
      ids := ids + {id};
      var segment := SourceWorkspaceNamespace(id);
      if segment in segments {
        return Err(DuplicateSourceWorkspaceNamespace(segment));
      }
      segments := segments + {segment};
    }
    return Ok(());
  }

  function Members(names: seq<string>): set<string> {
    set name | name in names
  }

  lemma MembersOfPrefix(names: seq<string>, n: nat)
    requires n < |names|
    ensures Members(names[..n + 1]) == Members(names[..n]) + {names[n]}
    ensures forall name :: name in Members(names[..n]) <==> exists i :: 0 <= i < n && names[i] == name
  {
    assert names[..n + 1] == names[..n] + [names[n]];
    forall name
      ensures name in Members(names[..n]) <==> exists i :: 0 <= i < n && names[i] == name
    {
      if name in names[..n] {
        var i :| 0 <= i < n && names[..n][i] == name;
        assert names[i] == name;
      }
    }
  }

  /** Different ids never share a directory, so the second error never happens. */
  lemma DistinctIdsSuffice(sourceIds: seq<string>)
    ensures Distinct(sourceIds) <==> Distinct(Namespaces(sourceIds))
    ensures !SharedNamespace(sourceIds)
  {
    hide Namespace;
    forall i, j | 0 <= i < j < |sourceIds|
      ensures sourceIds[i] == sourceIds[j] <==> Namespaces(sourceIds)[i] == Namespaces(sourceIds)[j]
    {
      if Namespace(sourceIds[i]) == Namespace(sourceIds[j]) {
        NamespaceInjective(sourceIds[i], sourceIds[j]);
      }
    }
  }

  const DEFAULT_WORKFLOW := "WORKFLOW.md"

  function Selected(paths: seq<string>): seq<string> {
    if paths == [] then [DEFAULT_WORKFLOW] else paths
  }

  predicate Loads(paths: seq<string>, read: string -> Workflow) {
    forall i :: 0 <= i < |paths| ==> read(paths[i]).Ok?
  }

  /** What the workflows hold. */
  function Loaded(paths: seq<string>, read: string -> Workflow): seq<Config>
    requires Loads(paths, read)
  {
    seq(|paths|, i requires 0 <= i < |paths| => read(paths[i]).value)
  }

  class ConfigSetReloader {
    const reloaders: seq<ConfigReloader>

    ghost predicate Valid()
      reads this, reloaders
    {
      (forall i, j :: 0 <= i < j < |reloaders| ==> reloaders[i] != reloaders[j]) && Distinct(SourceIds(CurrentCloned()))
    }

    /** One reloader for each configuration, whose sources are distinct. */
    constructor (configs: seq<Config>, modified: seq<Option<nat>>)
      requires |modified| == |configs| && Distinct(SourceIds(configs))
      ensures Valid() && CurrentCloned() == configs && forall i :: 0 <= i < |reloaders| ==> fresh(reloaders[i])
    {
      var made: seq<ConfigReloader> := [];
      for n := 0 to |configs|
        invariant |made| == n && forall i :: 0 <= i < n ==> fresh(made[i]) && made[i].lastGood == configs[i]
        invariant forall i, j :: 0 <= i < j < n ==> made[i] != made[j]
      {
        var reloader := new ConfigReloader(configs[n], modified[n]);
        made := made + [reloader];
      }
      reloaders := made;
      new;
      assert CurrentCloned() == configs;
    }

    /**
      Opens every workflow named on the command line, or the default one, and refuses sources that share an id. The
      first workflow that does not load decides the error.
    */
    static method Open(paths: seq<string>, read: string -> Workflow, modified: string -> Option<nat>)
      returns (r: Result<ConfigSetReloader, ReloadError>)
      ensures r.Ok? <==> Loads(Selected(paths), read) && Distinct(SourceIds(Loaded(Selected(paths), read)))
      ensures r.Ok? ==>
                && fresh(r.value) && r.value.Valid() && r.value.CurrentCloned() == Loaded(Selected(paths), read)
                && forall i :: 0 <= i < |r.value.reloaders| ==> fresh(r.value.reloaders[i])
      ensures r.Err? && !Loads(Selected(paths), read) ==>
                exists i :: 0 <= i < |Selected(paths)| && read(Selected(paths)[i]) == Err(r.error)
                            && forall j :: 0 <= j < i ==> read(Selected(paths)[j]).Ok?
      ensures r.Err? && Loads(Selected(paths), read) ==> r.error.DuplicateSourceId?
    {
      var selected := Selected(paths);
      var configs: seq<Config> := [];
      var times: seq<Option<nat>> := [];
      for n := 0 to |selected|
        invariant |configs| == |times| == n
        invariant forall i :: 0 <= i < n ==> read(selected[i]) == Ok(configs[i])
      {
        var workflow := read(selected[n]);
        if workflow.Err? {
          return Err(workflow.error);
        }
        configs := configs + [workflow.value];
        times := times + [modified(selected[n])];
      }
      assert configs == Loaded(selected, read);
      var unique := ValidateUniqueSourceIds(SourceIds(configs));
      DistinctIdsSuffice(SourceIds(configs));
      if unique.Err? {
        return Err(unique.error);
      }
      var reloader := new ConfigSetReloader(configs, times);
      return Ok(reloader);
    }

    function CurrentCloned(): seq<Config>
      reads this, reloaders
    {
      seq(|reloaders|, i requires 0 <= i < |reloaders| reads this, reloaders => reloaders[i].lastGood)
    }

    /**
      Reloads every source; each keeps its id, and one that fails keeps its last good configuration. Every source's
      result is the verdict on its own file and time. `after` holds the times read once more after a reload.
    */
    method ReloadIfChanged(files: seq<Workflow>, modified: seq<Option<nat>>)
      returns (results: seq<Result<bool, ReloadError>>, ghost after: seq<Option<nat>>)
      requires Valid() && |files| == |modified| == |reloaders|
      modifies reloaders
      ensures Valid() && SourceIds(CurrentCloned()) == old(SourceIds(CurrentCloned()))
      ensures |results| == |reloaders| == |after|
      ensures forall i :: 0 <= i < |reloaders| ==>
                && results[i] == Verdict(files[i], modified[i], old(reloaders[i].lastGood.sourceId),
                                         old(reloaders[i].lastModified))
                && reloaders[i].lastGood ==
                   (if results[i] == Ok(true) && files[i].Ok? then files[i].value else old(reloaders[i].lastGood))
                && reloaders[i].lastModified ==
                   if results[i] == Ok(true) then after[i] else old(reloaders[i].lastModified)
    {
      results, after := [], [];
      for n := 0 to |reloaders|
        invariant |results| == |after| == n
        invariant forall i :: n <= i < |reloaders| ==>
                    && reloaders[i].lastGood == old(reloaders[i].lastGood)
                    && reloaders[i].lastModified == old(reloaders[i].lastModified)
        invariant forall i :: 0 <= i < n ==>
                    && reloaders[i].lastGood.sourceId == old(reloaders[i].lastGood.sourceId)
                    && results[i] == Verdict(files[i], modified[i], old(reloaders[i].lastGood.sourceId),
                                             old(reloaders[i].lastModified))
                    && reloaders[i].lastGood ==
                       (if results[i] == Ok(true) && files[i].Ok? then files[i].value else old(reloaders[i].lastGood))
                    && reloaders[i].lastModified ==
                       if results[i] == Ok(true) then after[i] else old(reloaders[i].lastModified)
      {
        hide Verdict;
        var modifiedAfter: Option<nat> := *;
        var r := reloaders[n].ReloadIfChanged(files[n], modified[n], modifiedAfter);
        results, after := results + [r], after + [modifiedAfter];
      }
      assert SourceIds(CurrentCloned()) == old(SourceIds(CurrentCloned()));
    }
  }

  function SourceIds(configs: seq<Config>): seq<string> {
    seq(|configs|, i requires 0 <= i < |configs| => configs[i].sourceId)
  }

  /** Whatever was reloaded, the current configurations fit the service that was started with these sources. */
  lemma CurrentFits(first: seq<Config>, now: seq<Config>)
    requires SourceIds(now) == SourceIds(first)
    ensures ConfigsFit(set i | 0 <= i < |first| :: first[i].sourceId, now)
  {
    assert |now| == |SourceIds(now)| == |first|;
    assert forall i :: 0 <= i < |now| ==>
             now[i].sourceId == SourceIds(now)[i] == SourceIds(first)[i] == first[i].sourceId;
  }
}
