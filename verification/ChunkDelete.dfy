/** The deletes of the chunk tier, statement by statement inside one transaction. */
module ChunkDelete {
  import opened Options
  import opened ChunkTables

  /** Source trees of the given scopes that no chunk of the kind keeps. */
  function OrphanTrees(t: Tables, kind: SourceKind, survivors: map<ChunkId, ChunkRow>, scopes: set<string>): set<TreeId> {
    set id | id in t.trees && t.trees[id].kind == Source && t.trees[id].scope in scopes
             && ScopeOrphaned(kind, survivors, t.trees[id].scope)
  }

  lemma OrphanTreesAll(t: Tables, kind: SourceKind, filter: DeleteFilter, scopes: set<string>)
    requires forall s :: s in scopes <==> exists c :: c in Selection(t, kind, filter) && ScopeOf(Selection(t, kind, filter)[c]) == s
    ensures OrphanTrees(t, kind, Survivors(t, kind, filter), scopes) == RemovedTrees(t, kind, filter)
  {
    hide Selection, Survivors, ScopeOrphaned, ScopeOf;
  }

  lemma RowsElsewhereTwice(summaries: map<SummaryId, SummaryRow>, m: map<(SummaryId, string), string>, a: set<TreeId>, b: set<TreeId>)
    ensures RowsElsewhere(SummariesElsewhere(summaries, a), RowsElsewhere(summaries, m, a), b) == RowsElsewhere(summaries, m, a + b)
  {
  }

  lemma ElsewhereTwice(t: Tables, a: set<TreeId>, b: set<TreeId>)
    ensures EntitiesElsewhere(EntitiesElsewhere(t.entityIndex, a), b) == EntitiesElsewhere(t.entityIndex, a + b)
    ensures SummariesElsewhere(SummariesElsewhere(t.summaries, a), b) == SummariesElsewhere(t.summaries, a + b)
    ensures BuffersElsewhere(BuffersElsewhere(t.buffers, a), b) == BuffersElsewhere(t.buffers, a + b)
    ensures t.trees - a - b == t.trees - (a + b)
  {
  }

  /** Removing trees one after the other removes them all. */
  lemma WithoutTreesTwice(t: Tables, a: set<TreeId>, b: set<TreeId>)
    ensures WithoutTrees(WithoutTrees(t, a), b) == WithoutTrees(t, a + b)
  {
    hide EntitiesElsewhere, SummariesElsewhere, RowsElsewhere, BuffersElsewhere;
    ElsewhereTwice(t, a, b);
    RowsElsewhereTwice(t.summaries, t.summaryEmbeddings, a, b);
    RowsElsewhereTwice(t.summaries, t.summarySkipped, a, b);
  }

  lemma WithoutNoTrees(t: Tables)
    ensures WithoutTrees(t, {}) == t
  {
    assert EntitiesElsewhere(t.entityIndex, {}) == t.entityIndex && SummariesElsewhere(t.summaries, {}) == t.summaries;
    assert BuffersElsewhere(t.buffers, {}) == t.buffers && t.trees - {} == t.trees;
    assert RowsElsewhere(t.summaries, t.summaryEmbeddings, {}) == t.summaryEmbeddings;
    assert RowsElsewhere(t.summaries, t.summarySkipped, {}) == t.summarySkipped;
  }

  /** The ingest gates of some raw files. */
  function RawGates(files: set<Path>): set<Gate> {
    set p | p in files :: (RAW_FILE_GATE_KIND, p)
  }

  function Swept(gates: set<Gate>, kind: SourceKind, filter: DeleteFilter, selection: map<ChunkId, ChunkRow>, survivors: map<ChunkId, ChunkRow>): set<Gate> {
    set g | g in gates && !SourceGateRemoved(kind, filter, selection, survivors, g)
  }

  lemma SelectionCount(t: Tables, kind: SourceKind, filter: DeleteFilter)
    ensures |Selection(t, kind, filter)| == |t.chunks.Keys - Survivors(t, kind, filter).Keys|
  {
    hide Selected;
    assert t.chunks.Keys - Survivors(t, kind, filter).Keys == Selection(t, kind, filter).Keys;
  }

  class ChunkStore {
    const parse: ParseRefs
    var chunks: map<ChunkId, ChunkRow>
    var scores: map<ChunkId, string>
    var entityIndex: map<(string, string), EntityRow>
    var embeddings: map<(ChunkId, string), string>
    var reembedSkipped: map<(ChunkId, string), string>
    var gates: set<Gate>
    var trees: map<TreeId, TreeRow>
    var summaries: map<SummaryId, SummaryRow>
    var summaryEmbeddings: map<(SummaryId, string), string>
    var summarySkipped: map<(SummaryId, string), string>
    var buffers: map<(TreeId, nat), string>
    // Tables only a purge empties, and the audit log it leaves alone.
    var entityEdges: map<(string, string), nat>
    var entityHotness: map<string, nat>
    var jobs: map<string, string>
    var mcpWrites: seq<string>

    constructor (parse: ParseRefs, t: Tables)
      ensures this.parse == parse && Rows() == t
    {
      this.parse := parse;
      chunks, scores, entityIndex, embeddings, reembedSkipped := t.chunks, t.scores, t.entityIndex, t.embeddings, t.reembedSkipped;
      gates, trees, summaries, buffers := t.gates, t.trees, t.summaries, t.buffers;
      summaryEmbeddings, summarySkipped := t.summaryEmbeddings, t.summarySkipped;
      entityEdges, entityHotness, jobs, mcpWrites := map[], map[], map[], [];
    }

    ghost function Rows(): Tables
      reads this
    {
      Tables(chunks, scores, entityIndex, embeddings, reembedSkipped, gates, trees, summaries, summaryEmbeddings, summarySkipped, buffers)
    }

    /** Content files and raw-file pointers of the selected rows. */
    method CollectPaths(selection: map<ChunkId, ChunkRow>) returns (scopes: set<string>, candidates: set<Path>, paths: seq<Path>)
      ensures forall s :: s in scopes <==> exists c :: c in selection && ScopeOf(selection[c]) == s
      ensures forall p :: p in candidates <==> exists c :: c in selection && RefsOf(parse, selection[c]).Some? && p in RefsOf(parse, selection[c]).value
      ensures forall p :: p in paths <==> p != "" && exists c :: c in selection && selection[c].contentPath == Some(p)
    {
      scopes, candidates, paths := {}, {}, [];
      var rest := selection.Keys;
      while rest != {}
        invariant rest <= selection.Keys
        invariant forall s :: s in scopes <==> exists c :: c in selection && c !in rest && ScopeOf(selection[c]) == s
        invariant forall p :: p in candidates <==>
                    exists c :: c in selection && c !in rest && RefsOf(parse, selection[c]).Some? && p in RefsOf(parse, selection[c]).value
        invariant forall p :: p in paths <==> p != "" && exists c :: c in selection && c !in rest && selection[c].contentPath == Some(p)
        decreases |rest|
      {
        var id :| id in rest;
        var row := selection[id];
        rest := rest - {id};
        scopes := scopes + {ScopeOf(row)};
        var refs := RefsOf(parse, row);
        if refs.Some? {
          candidates := candidates + set p | p in refs.value;
        }
        if row.contentPath.Some? && row.contentPath.value != "" {
          paths := paths + [row.contentPath.value];
        }
      }
    }

    /** What the surviving pointer rows still reference, and whether one of them is unreadable. */
    method SurvivingReferences() returns (surviving: set<Path>, corrupt: bool)
      ensures corrupt <==> exists id :: id in chunks && Corrupt(parse, chunks[id])
      ensures forall p :: p in surviving <==> exists id :: id in chunks && PointsTo(parse, chunks[id], p)
    {
      surviving, corrupt := {}, false;
      var rest := chunks.Keys;
      while rest != {}
        invariant rest <= chunks.Keys
        invariant corrupt <==> exists id :: id in chunks && id !in rest && Corrupt(parse, chunks[id])
        invariant forall p :: p in surviving <==> exists id :: id in chunks && id !in rest && PointsTo(parse, chunks[id], p)
        decreases |rest|
      {
        var id :| id in rest;
        rest := rest - {id};
        var row := chunks[id];
        if row.rawRefs.Some? && row.rawRefs.value != "" {
          var refs := parse(row.rawRefs.value);
          if refs.Some? {
            surviving := surviving + set p | p in refs.value;
          } else {
            corrupt := true;
          }
        }
      }
    }

    /** The gates and paths of raw files nothing references any more. */
    method RemoveRawFiles(files: set<Path>) returns (paths: seq<Path>)
      modifies this`gates
      ensures gates == old(gates) - RawGates(files)
      ensures Rows() == old(Rows()).(gates := gates)
      ensures forall p :: p in paths <==> p in files
    {
      paths := [];
      var rest := files;
      while rest != {}
        invariant rest <= files
        invariant gates == old(gates) - RawGates(files - rest)
        invariant forall p :: p in paths <==> p in files && p !in rest
        decreases |rest|
      {
        var p :| p in rest;
        rest := rest - {p};
        gates := gates - {(RAW_FILE_GATE_KIND, p)};
        paths := paths + [p];
      }
    }

    /** The gates of sources that lost their last chunk, and those the filter names. */
    method RemoveSourceGates(kind: SourceKind, filter: DeleteFilter, selection: map<ChunkId, ChunkRow>)
      modifies this`gates
      ensures gates == Swept(old(gates), kind, filter, selection, chunks)
      ensures Rows() == old(Rows()).(gates := gates)
    {
      hide SourceGateRemoved, LostLastChunk;
      forall g ensures SourceGateRemoved(kind, filter, selection, chunks, g)
                       <==> g.0 == KindName(kind) && (Names(filter, g) || LostLastChunk(selection, chunks, g)) {
        SourceGateMeaning(kind, filter, selection, chunks, g);
      }
      gates := set g | g in gates && !(g.0 == KindName(kind) && LostLastChunk(selection, chunks, g));
      match filter {
        case ExactSource(id) =>
          gates := gates - {(KindName(kind), id)};
        case SourcePrefix(prefix) =>
          gates := set g | g in gates && !(g.0 == KindName(kind) && prefix <= g.1);
        case Owner(_) =>
        case ById(_) =>
      }
    }

    method TreeByScope(scope: string) returns (tree: Option<TreeId>)
      ensures tree.Some? ==> tree.value in trees && trees[tree.value] == TreeRow(Source, scope)
      ensures tree.None? ==> forall id :: id in trees ==> trees[id] != TreeRow(Source, scope)
    {
      var rest := trees.Keys;
      while rest != {}
        invariant rest <= trees.Keys
        invariant forall id :: id in trees && id !in rest ==> trees[id] != TreeRow(Source, scope)
        decreases |rest|
      {
        var id :| id in rest;
        if trees[id] == TreeRow(Source, scope) {
          return Some(id);
        }
        rest := rest - {id};
      }
      return None;
    }

    /** A tree, its summaries and their rows, its buffers and the entity rows filed under it. */
    method DeleteTreeCascade(id: TreeId) returns (paths: seq<Path>)
      modifies this`entityIndex, this`trees, this`summaries, this`summaryEmbeddings, this`summarySkipped, this`buffers
      ensures Rows() == WithoutTrees(old(Rows()), {id})
      ensures forall p :: p in paths <==> TreeFile(old(summaries), id, p)
    {
      hide EntitiesElsewhere, SummariesElsewhere, RowsElsewhere, BuffersElsewhere;
      paths := SummaryPaths(id);
      summaryEmbeddings := RowsElsewhere(summaries, summaryEmbeddings, {id});
      summarySkipped := RowsElsewhere(summaries, summarySkipped, {id});
      entityIndex := EntitiesElsewhere(entityIndex, {id});
      summaries := SummariesElsewhere(summaries, {id});
      buffers := BuffersElsewhere(buffers, {id});
      trees := trees - {id};
    }

    method SummaryPaths(id: TreeId) returns (paths: seq<Path>)
      ensures forall p :: p in paths <==> TreeFile(summaries, id, p)
    {
      paths := [];
      var rest := summaries.Keys;
      while rest != {}
        invariant rest <= summaries.Keys
        invariant forall p :: p in paths <==>
                    p != "" && exists s :: s in summaries && s !in rest && summaries[s].treeId == id && summaries[s].contentPath == Some(p)
        decreases |rest|
      {
        var s :| s in rest;
        rest := rest - {s};
        var row := summaries[s];
        if row.treeId == id && row.contentPath.Some? && row.contentPath.value != "" {
          paths := paths + [row.contentPath.value];
        }
      }
    }

    /** The source trees of scopes that no chunk of the kind keeps. */
    method RemoveOrphanTrees(kind: SourceKind, scopes: set<string>) returns (paths: seq<Path>)
      requires UniqueScopes(trees)
      modifies this`entityIndex, this`trees, this`summaries, this`summaryEmbeddings, this`summarySkipped, this`buffers
      ensures Rows() == WithoutTrees(old(Rows()), OrphanTrees(old(Rows()), kind, chunks, scopes))
      ensures forall p :: p in paths <==> SummaryFile(old(summaries), OrphanTrees(old(Rows()), kind, chunks, scopes), p)
    {
      hide WithoutTrees, ScopeOrphaned;
      ghost var t := Rows();
      WithoutNoTrees(t);
      paths := [];
      var rest := scopes;
      ghost var done: set<string> := {};
      assert OrphanTrees(t, kind, chunks, {}) == {};
      while rest != {}
        invariant rest !! done && rest + done == scopes
        invariant Rows() == WithoutTrees(t, OrphanTrees(t, kind, chunks, done))
        invariant forall p :: p in paths <==> SummaryFile(t.summaries, OrphanTrees(t, kind, chunks, done), p)
        decreases |rest|
      {
        var scope :| scope in rest;
        rest := rest - {scope};
        ghost var gone := OrphanTrees(t, kind, chunks, done);
        TreesLeft(t, gone);
        if ScopeOrphaned(kind, chunks, scope) {
          var tree := TreeByScope(scope);
          if tree.Some? {
            OneMoreTree(t, kind, chunks, done, scope, tree.value);
            SummariesLeft(t, gone, tree.value);
            WithoutTreesTwice(t, gone, {tree.value});
            var cascade := DeleteTreeCascade(tree.value);
            paths := paths + cascade;
          } else {
            NoMoreTree(t, kind, chunks, done, scope);
          }
        } else {
          KeptScope(t, kind, chunks, done, scope);
        }
        done := done + {scope};
      }
    }

    /** The selected chunks and every row keyed by one. */
    method DeleteRows(ids: set<ChunkId>)
      modifies this`chunks, this`scores, this`entityIndex, this`embeddings, this`reembedSkipped
      ensures Rows() == WithoutChunks(old(Rows()), ids)
    {
      hide EntitiesOfOthers, RowsOfOthers;
      scores := scores - ids;
      entityIndex := EntitiesOfOthers(entityIndex, ids);
      embeddings := RowsOfOthers(embeddings, ids);
      reembedSkipped := RowsOfOthers(reembedSkipped, ids);
      chunks := chunks - ids;
    }

    /** Raw files the deleted chunks pointed to and nothing else does, with their gates. */
    method RemoveUnreachableRaw(selection: map<ChunkId, ChunkRow>, candidates: set<Path>) returns (rawPaths: seq<Path>, ghost files: set<Path>)
      requires forall p :: p in candidates <==> exists c :: c in selection && RefsOf(parse, selection[c]).Some? && p in RefsOf(parse, selection[c]).value
      modifies this`gates
      ensures Rows() == old(Rows()).(gates := old(gates) - RawGates(files))
      ensures forall p :: p in files <==> RawRemoved(parse, selection, chunks, p)
      ensures forall p :: p in rawPaths <==> p in files
    {
      hide Corrupt, PointsTo, RefsOf, RawRemoved, RawGates;
      var surviving, corrupt := SurvivingReferences();
      var unreachable := if corrupt then {} else candidates - surviving;
      UnreachableFiles(parse, selection, chunks, candidates, surviving, corrupt, unreachable);
      rawPaths := RemoveRawFiles(unreachable);
      files := unreachable;
    }

    /** The rows of the selected chunks, the raw files that became unreachable, and the gates. */
    method DeleteRowsAndGates(kind: SourceKind, filter: DeleteFilter, selection: map<ChunkId, ChunkRow>, candidates: set<Path>)
      returns (rawPaths: seq<Path>)
      requires selection == Selection(Rows(), kind, filter)
      requires forall p :: p in candidates <==> exists c :: c in selection && RefsOf(parse, selection[c]).Some? && p in RefsOf(parse, selection[c]).value
      modifies this`chunks, this`scores, this`entityIndex, this`embeddings, this`reembedSkipped, this`gates
      ensures Rows() == WithoutChunks(old(Rows()), selection.Keys).(gates := old(gates) - RemovedGates(old(Rows()), parse, kind, filter))
      ensures forall p :: p in rawPaths <==> RawRemoved(parse, selection, Survivors(old(Rows()), kind, filter), p)
    {
      hide Selection, RefsOf, RemovedGates, RawRemoved, EntitiesOfOthers, RowsOfOthers, RawGates, Swept;
      ghost var t := Rows();
      DeleteRows(selection.Keys);
      assert chunks == Survivors(t, kind, filter);
      ghost var files;
      rawPaths, files := RemoveUnreachableRaw(selection, candidates);
      ghost var afterRaw := gates;
      RemoveSourceGates(kind, filter, selection);
      GatesLeft(t, parse, kind, filter, files, afterRaw, gates);
    }

    /** One filtered delete; returns the number of chunk rows and the files to be removed after the commit. */
    method DeleteChunksBySourceFilter(kind: SourceKind, filter: DeleteFilter) returns (deleted: nat, paths: seq<Path>)
      requires UniqueScopes(trees)
      modifies this`chunks, this`scores, this`entityIndex, this`embeddings, this`reembedSkipped, this`gates,
               this`trees, this`summaries, this`summaryEmbeddings, this`summarySkipped, this`buffers
      ensures Rows() == AfterDelete(old(Rows()), parse, kind, filter)
      ensures deleted == |old(chunks).Keys - chunks.Keys|
      ensures DeletesRows(old(chunks), chunks, kind, filter)
      ensures forall p :: p in paths <==> FileRemoved(old(Rows()), parse, kind, filter, p)
    {
      hide ScopeOf, SelectedRows, RefsOf, WithoutTrees, RemovedGates, RemovedTrees,
           OrphanTrees, RawRemoved, FileRemoved, SummaryFile, AfterDelete, EntitiesOfOthers, RowsOfOthers, DeletesRows;
      ghost var t := Rows();
      var selection := SelectedRows(chunks, kind, filter);
      var scopes, candidates, contentPaths := CollectPaths(selection);
      var rawPaths := DeleteRowsAndGates(kind, filter, selection, candidates);
      assert chunks == Survivors(t, kind, filter);
      OrphanTreesAll(t, kind, filter, scopes);
      Assembled(t, Rows(), parse, kind, filter, scopes);
      var treePaths := RemoveOrphanTrees(kind, scopes);
      deleted := |selection|;
      paths := contentPaths + rawPaths + treePaths;
      FilesListed(t, parse, kind, filter, contentPaths, rawPaths, treePaths);
      ChunksGone(t, parse, kind, filter);
      SelectionCount(t, kind, filter);
    }

    /** Delete by id; the kind is read from the row, and a row of an unknown kind is an error that changes nothing. */
    method DeleteChunkById(id: ChunkId) returns (deleted: Option<nat>, paths: seq<Path>)
      requires UniqueScopes(trees)
      modifies this`chunks, this`scores, this`entityIndex, this`embeddings, this`reembedSkipped, this`gates,
               this`trees, this`summaries, this`summaryEmbeddings, this`summarySkipped, this`buffers
      ensures id !in old(chunks) ==> deleted == Some(0) && Rows() == old(Rows())
      ensures id in old(chunks) && ParseKind(old(chunks)[id].sourceKind).None? ==> deleted == None && Rows() == old(Rows())
      ensures id in old(chunks) && ParseKind(old(chunks)[id].sourceKind).Some? ==>
                deleted == Some(1) && Rows() == AfterDelete(old(Rows()), parse, ParseKind(old(chunks)[id].sourceKind).value, ById(id))
                && forall p :: p in paths <==> FileRemoved(old(Rows()), parse, ParseKind(old(chunks)[id].sourceKind).value, ById(id), p)
    {
      hide AfterDelete, FileRemoved;
      if id !in chunks {
        return Some(0), [];
      }
      var kind := ParseKind(chunks[id].sourceKind);
      if kind.None? {
        return None, [];
      }
      var n;
      n, paths := DeleteChunksBySourceFilter(kind.value, ById(id));
      assert old(chunks).Keys - chunks.Keys == {id};
      deleted := Some(n);
    }

    /** Clean up after a source whose last chunk is gone; returns whether a tree was removed. */
    method DeleteOrphanedSourceTree(kind: SourceKind, sourceId: SourceId) returns (cascaded: bool, paths: seq<Path>)
      requires UniqueScopes(trees)
      modifies this`gates, this`entityIndex, this`trees, this`summaries, this`summaryEmbeddings, this`summarySkipped, this`buffers
      ensures Rows() == AfterOrphanCleanup(old(Rows()), kind, sourceId)
      ensures cascaded <==> HasChunks(old(Rows()), kind, sourceId) == false && exists id :: id in old(trees) && old(trees)[id] == TreeRow(Source, sourceId)
      ensures forall p :: p in paths <==> cascaded && SummaryFile(old(summaries), SourceTrees(old(Rows()), sourceId), p)
    {
      hide WithoutTrees, WithoutStaleGates;
      ghost var t := Rows();
      WithoutNoTrees(t);
      if exists id :: id in chunks && chunks[id].sourceKind == KindName(kind) && chunks[id].sourceId == sourceId {
        return false, [];
      }
      gates := WithoutStaleGates(gates, kind, sourceId);
      var tree := TreeByScope(sourceId);
      ghost var mid := Rows();
      ScopeTrees(t, sourceId, tree);
      GatesApart(t, mid, SourceTrees(t, sourceId));
      if tree.Some? {
        paths := DeleteTreeCascade(tree.value);
        cascaded := true;
      } else {
        WithoutNoTrees(mid);
        cascaded, paths := false, [];
      }
    }

    function DerivedRows(): nat
      reads this`scores, this`entityIndex, this`entityEdges, this`entityHotness, this`jobs, this`buffers
    {
      |scores| + |entityIndex| + |entityEdges| + |entityHotness| + |jobs| + |buffers|
    }

    function TreeRows(): nat
      reads this`summaryEmbeddings, this`summarySkipped, this`summaries, this`trees
    {
      |summaryEmbeddings| + |summarySkipped| + |summaries| + |trees|
    }

    function ChunkRows(): nat
      reads this`embeddings, this`reembedSkipped, this`chunks, this`gates
    {
      |embeddings| + |reembedSkipped| + |chunks| + |gates|
    }

    method ClearDerived() returns (removed: nat)
      modifies this`scores, this`entityIndex, this`entityEdges, this`entityHotness, this`jobs, this`buffers
      ensures scores == map[] && entityIndex == map[] && entityEdges == map[] && entityHotness == map[] && jobs == map[] && buffers == map[]
      ensures removed == old(DerivedRows())
    {
      removed := DerivedRows();
      scores := map[];
      entityIndex := map[];
      entityEdges := map[];
      entityHotness := map[];
      jobs := map[];
      buffers := map[];
    }

    method ClearTrees() returns (removed: nat)
      modifies this`summaryEmbeddings, this`summarySkipped, this`summaries, this`trees
      ensures summaryEmbeddings == map[] && summarySkipped == map[] && summaries == map[] && trees == map[]
      ensures removed == old(TreeRows())
    {
      removed := TreeRows();
      summaryEmbeddings := map[];
      summarySkipped := map[];
      summaries := map[];
      trees := map[];
    }

    method ClearChunks() returns (removed: nat)
      modifies this`embeddings, this`reembedSkipped, this`chunks, this`gates
      ensures embeddings == map[] && reembedSkipped == map[] && chunks == map[] && gates == {}
      ensures removed == old(ChunkRows())
    {
      removed := ChunkRows();
      embeddings := map[];
      reembedSkipped := map[];
      chunks := map[];
      gates := {};
    }

    /** Everything goes except the audit log; returns the rows of all tables, and every file they pointed to. */
    method PurgeAll() returns (deleted: nat, paths: seq<Path>)
      modifies this
      ensures chunks == map[] && scores == map[] && entityIndex == map[] && embeddings == map[] && reembedSkipped == map[]
      ensures gates == {} && trees == map[] && summaries == map[] && buffers == map[]
      ensures summaryEmbeddings == map[] && summarySkipped == map[]
      ensures entityEdges == map[] && entityHotness == map[] && jobs == map[] && mcpWrites == old(mcpWrites)
      ensures deleted == old(DerivedRows() + TreeRows() + ChunkRows())
      ensures forall p :: p in paths <==> Referenced(old(Rows()), parse, p)
    {
      hide Referenced, DerivedRows, TreeRows, ChunkRows;
      paths := PurgePaths();
      var derived := ClearDerived();
      var treeRows := ClearTrees();
      var chunkRows := ClearChunks();
      deleted := derived + treeRows + chunkRows;
    }

    method PurgePaths() returns (paths: seq<Path>)
      ensures forall p :: p in paths <==> Referenced(Rows(), parse, p)
    {
      hide PointsTo;
      paths := [];
      var rest := chunks.Keys;
      while rest != {}
        invariant rest <= chunks.Keys
        invariant forall p :: p in paths <==> exists c :: c in chunks && c !in rest && ChunkFile(chunks[c], parse, p)
        decreases |rest|
      {
        var id :| id in rest;
        rest := rest - {id};
        var files := FilesOfChunk(chunks[id]);
        paths := paths + files;
      }
      var left := summaries.Keys;
      while left != {}
        invariant left <= summaries.Keys
        invariant forall p :: p in paths <==>
                    (exists c :: c in chunks && ChunkFile(chunks[c], parse, p))
                    || (exists s :: s in summaries && s !in left && p != "" && summaries[s].contentPath == Some(p))
        decreases |left|
      {
        var s :| s in left;
        left := left - {s};
        if summaries[s].contentPath.Some? && summaries[s].contentPath.value != "" {
          paths := paths + [summaries[s].contentPath.value];
        }
      }
    }

    method FilesOfChunk(row: ChunkRow) returns (files: seq<Path>)
      ensures forall p :: p in files <==> ChunkFile(row, parse, p)
    {
      files := [];
      if row.contentPath.Some? && row.contentPath.value != "" {
        files := [row.contentPath.value];
      }
      if row.rawRefs.Some? && row.rawRefs.value != "" {
        var refs := parse(row.rawRefs.value);
        if refs.Some? {
          files := files + refs.value;
        }
      }
    }
  }

  predicate HasChunks(t: Tables, kind: SourceKind, sourceId: SourceId) {
    exists id :: id in t.chunks && t.chunks[id].sourceKind == KindName(kind) && t.chunks[id].sourceId == sourceId
  }

  /** The source's own gate, or that of one of its versions. */
  predicate StaleGate(kind: SourceKind, sourceId: SourceId, g: Gate) {
    g.0 == KindName(kind) && (g.1 == sourceId || sourceId + "@" <= g.1)
  }

  function WithoutStaleGates(gates: set<Gate>, kind: SourceKind, sourceId: SourceId): set<Gate> {
    set g | g in gates && !StaleGate(kind, sourceId, g)
  }

  function SourceTrees(t: Tables, scope: string): set<TreeId> {
    set id | id in t.trees && t.trees[id] == TreeRow(Source, scope)
  }

  function AfterOrphanCleanup(t: Tables, kind: SourceKind, sourceId: SourceId): Tables {
    if HasChunks(t, kind, sourceId) then t
    else WithoutTrees(t, SourceTrees(t, sourceId)).(gates := WithoutStaleGates(t.gates, kind, sourceId))
  }

  lemma ScopeTrees(t: Tables, scope: string, tree: Option<TreeId>)
    requires UniqueScopes(t.trees)
    requires tree.Some? ==> tree.value in t.trees && t.trees[tree.value] == TreeRow(Source, scope)
    requires tree.None? ==> forall id :: id in t.trees ==> t.trees[id] != TreeRow(Source, scope)
    ensures SourceTrees(t, scope) == if tree.Some? then {tree.value} else {}
  {
  }

  lemma GatesApart(t: Tables, mid: Tables, trees: set<TreeId>)
    requires mid == t.(gates := mid.gates)
    ensures WithoutTrees(mid, trees) == WithoutTrees(t, trees).(gates := mid.gates)
  {
  }

  /** A chunk of the source is stored. */
  predicate Used(t: Tables, g: Gate) {
    exists c :: c in t.chunks && t.chunks[c].sourceKind == g.0 && t.chunks[c].sourceId == g.1
  }

  /**
   * The clean-up takes every gate that looks like one of a version of the source.  It removes only
   * gates of sources without chunks exactly when no gated source that has chunks, of the same kind,
   * goes on with `@` after the source's own id.
   */
  lemma OrphanGatesUnused(t: Tables, kind: SourceKind, sourceId: SourceId)
    requires !HasChunks(t, kind, sourceId)
    ensures (forall g :: g in t.gates && g !in AfterOrphanCleanup(t, kind, sourceId).gates ==> !Used(t, g))
       <==> (forall c :: c in t.chunks && t.chunks[c].sourceKind == KindName(kind) && sourceId + "@" <= t.chunks[c].sourceId ==>
               (KindName(kind), t.chunks[c].sourceId) !in t.gates)
  {
    hide WithoutTrees;
    var after := AfterOrphanCleanup(t, kind, sourceId);
    assert forall g :: g in t.gates ==> (g !in after.gates <==> StaleGate(kind, sourceId, g));
    if c :| c in t.chunks && t.chunks[c].sourceKind == KindName(kind) && sourceId + "@" <= t.chunks[c].sourceId
            && (KindName(kind), t.chunks[c].sourceId) in t.gates
    {
      var g := (KindName(kind), t.chunks[c].sourceId);
      assert StaleGate(kind, sourceId, g) && Used(t, g);
    } else {
      forall g | g in t.gates && g !in after.gates ensures !Used(t, g) {
        assert StaleGate(kind, sourceId, g) && g == (g.0, g.1);
        if g.1 == sourceId {
          assert !HasChunks(t, kind, sourceId);
        }
      }
    }
  }

  /** Cleaning up after the source "alice", which has no chunks, takes the gate of "alice@example.com", which has. */
  lemma AliceTakesGate()
    ensures var row := ChunkRow("document", "alice@example.com", None, "me", None, None);
            var gate := ("document", "alice@example.com");
            var t := Tables(map["c" := row], map[], map[], map[], map[], {gate}, map[], map[], map[], map[], map[]);
            && !HasChunks(t, Document, "alice") && Used(t, gate)
            && gate in t.gates && gate !in AfterOrphanCleanup(t, Document, "alice").gates
  {
    var row := ChunkRow("document", "alice@example.com", None, "me", None, None);
    var gate := ("document", "alice@example.com");
    var t := Tables(map["c" := row], map[], map[], map[], map[], {gate}, map[], map[], map[], map[], map[]);
    assert |"alice"| != |"alice@example.com"|;
    assert "alice" + "@" == "alice@" && "alice@example.com"[..6] == "alice@";
    assert StaleGate(Document, "alice", gate);
    assert t.chunks["c"].sourceKind == gate.0 && t.chunks["c"].sourceId == gate.1;
  }

  lemma UnreachableFiles(parse: ParseRefs, selection: map<ChunkId, ChunkRow>, survivors: map<ChunkId, ChunkRow>,
                         candidates: set<Path>, surviving: set<Path>, corrupt: bool, files: set<Path>)
    requires forall p :: p in candidates <==> exists c :: c in selection && RefsOf(parse, selection[c]).Some? && p in RefsOf(parse, selection[c]).value
    requires corrupt <==> exists id :: id in survivors && Corrupt(parse, survivors[id])
    requires forall p :: p in surviving <==> exists id :: id in survivors && PointsTo(parse, survivors[id], p)
    requires files == if corrupt then {} else candidates - surviving
    ensures forall p :: p in files <==> RawRemoved(parse, selection, survivors, p)
  {
    hide Corrupt, PointsTo, RefsOf;
  }

  lemma GatesLeft(t: Tables, parse: ParseRefs, kind: SourceKind, filter: DeleteFilter, files: set<Path>, afterRaw: set<Gate>, after: set<Gate>)
    requires forall p :: p in files <==> RawRemoved(parse, Selection(t, kind, filter), Survivors(t, kind, filter), p)
    requires afterRaw == t.gates - RawGates(files)
    requires after == Swept(afterRaw, kind, filter, Selection(t, kind, filter), Survivors(t, kind, filter))
    ensures after == t.gates - RemovedGates(t, parse, kind, filter)
  {
    hide RawRemoved, SourceGateRemoved, Selection, Survivors;
    forall g ensures g in afterRaw <==> g in t.gates && !(g.0 == RAW_FILE_GATE_KIND && g.1 in files) {
      assert g == (g.0, g.1);
    }
  }

  lemma FilesListed(t: Tables, parse: ParseRefs, kind: SourceKind, filter: DeleteFilter,
                    contentPaths: seq<Path>, rawPaths: seq<Path>, treePaths: seq<Path>)
    requires forall p :: p in contentPaths <==>
               p != "" && exists c :: c in Selection(t, kind, filter) && Selection(t, kind, filter)[c].contentPath == Some(p)
    requires forall p :: p in rawPaths <==> RawRemoved(parse, Selection(t, kind, filter), Survivors(t, kind, filter), p)
    requires forall p :: p in treePaths <==> SummaryFile(t.summaries, RemovedTrees(t, kind, filter), p)
    ensures forall p :: p in contentPaths + rawPaths + treePaths <==> FileRemoved(t, parse, kind, filter, p)
  {
    hide RawRemoved, RemovedTrees, Selection, Survivors;
  }

  /** Removing the trees last completes the delete. */
  lemma Assembled(t: Tables, mid: Tables, parse: ParseRefs, kind: SourceKind, filter: DeleteFilter, scopes: set<string>)
    requires mid == WithoutChunks(t, Selection(t, kind, filter).Keys).(gates := t.gates - RemovedGates(t, parse, kind, filter))
    requires OrphanTrees(t, kind, Survivors(t, kind, filter), scopes) == RemovedTrees(t, kind, filter)
    ensures OrphanTrees(mid, kind, Survivors(t, kind, filter), scopes) == RemovedTrees(t, kind, filter)
    ensures WithoutTrees(mid, RemovedTrees(t, kind, filter)) == AfterDelete(t, parse, kind, filter)
  {
    hide Selection, Survivors, RemovedGates, RemovedTrees, EntitiesElsewhere, SummariesElsewhere, RowsElsewhere, BuffersElsewhere;
  }

  predicate LostLastChunk(selection: map<ChunkId, ChunkRow>, survivors: map<ChunkId, ChunkRow>, g: Gate) {
    (exists id :: id in selection && selection[id].sourceId == g.1)
    && !exists id :: id in survivors && survivors[id].sourceKind == g.0 && survivors[id].sourceId == g.1
  }

  /** The filter names the gate's source itself. */
  predicate Names(filter: DeleteFilter, g: Gate) {
    (filter.ExactSource? && g.1 == filter.value) || (filter.SourcePrefix? && filter.value <= g.1)
  }

  lemma SourceGateMeaning(kind: SourceKind, filter: DeleteFilter, selection: map<ChunkId, ChunkRow>, survivors: map<ChunkId, ChunkRow>, g: Gate)
    ensures SourceGateRemoved(kind, filter, selection, survivors, g)
       <==> g.0 == KindName(kind) && (Names(filter, g) || LostLastChunk(selection, survivors, g))
  {
  }

  ghost predicate UniqueScopes(trees: map<TreeId, TreeRow>) {
    forall a, b :: a in trees && b in trees && trees[a] == trees[b] ==> a == b
  }

  /** A content file of a summary in one of the trees. */
  ghost predicate SummaryFile(summaries: map<SummaryId, SummaryRow>, trees: set<TreeId>, path: Path) {
    path != "" && exists s :: s in summaries && summaries[s].treeId in trees && summaries[s].contentPath == Some(path)
  }

  lemma TreesLeft(t: Tables, gone: set<TreeId>)
    ensures WithoutTrees(t, gone).trees == t.trees - gone
    ensures WithoutTrees(t, gone).summaries == SummariesElsewhere(t.summaries, gone)
  {
  }

  lemma OneMoreTree(t: Tables, kind: SourceKind, survivors: map<ChunkId, ChunkRow>, done: set<string>, scope: string, id: TreeId)
    requires UniqueScopes(t.trees) && id in t.trees && t.trees[id] == TreeRow(Source, scope) && ScopeOrphaned(kind, survivors, scope)
    ensures OrphanTrees(t, kind, survivors, done + {scope}) == OrphanTrees(t, kind, survivors, done) + {id}
  {
  }

  lemma NoMoreTree(t: Tables, kind: SourceKind, survivors: map<ChunkId, ChunkRow>, done: set<string>, scope: string)
    requires scope !in done
    requires forall id :: id in t.trees - OrphanTrees(t, kind, survivors, done) ==> t.trees[id] != TreeRow(Source, scope)
    ensures OrphanTrees(t, kind, survivors, done + {scope}) == OrphanTrees(t, kind, survivors, done)
  {
    hide ScopeOrphaned;
    forall id | id in OrphanTrees(t, kind, survivors, done + {scope}) ensures id in OrphanTrees(t, kind, survivors, done) {
      assert t.trees[id].scope == scope ==> t.trees[id] == TreeRow(Source, scope);
    }
  }

  lemma KeptScope(t: Tables, kind: SourceKind, survivors: map<ChunkId, ChunkRow>, done: set<string>, scope: string)
    requires !ScopeOrphaned(kind, survivors, scope)
    ensures OrphanTrees(t, kind, survivors, done + {scope}) == OrphanTrees(t, kind, survivors, done)
  {
    hide ScopeOrphaned;
  }

  /** A content file of a summary of one tree. */
  ghost predicate TreeFile(summaries: map<SummaryId, SummaryRow>, id: TreeId, path: Path) {
    path != "" && exists s :: s in summaries && summaries[s].treeId == id && summaries[s].contentPath == Some(path)
  }

  lemma SummariesLeft(t: Tables, gone: set<TreeId>, id: TreeId)
    requires id !in gone
    ensures var left := SummariesElsewhere(t.summaries, gone);
            forall p :: SummaryFile(t.summaries, gone + {id}, p) <==> SummaryFile(t.summaries, gone, p) || TreeFile(left, id, p)
  {
    var left := SummariesElsewhere(t.summaries, gone);
    forall p
      ensures SummaryFile(t.summaries, gone + {id}, p) <==> SummaryFile(t.summaries, gone, p) || TreeFile(left, id, p)
    {
      if SummaryFile(t.summaries, gone + {id}, p) {
        var s :| s in t.summaries && t.summaries[s].treeId in gone + {id} && t.summaries[s].contentPath == Some(p);
        assert t.summaries[s].treeId in gone || s in left;
      }
      if TreeFile(left, id, p) {
        var s :| s in left && left[s].treeId == id && left[s].contentPath == Some(p);
        assert t.summaries[s].treeId in gone + {id};
      }
    }
  }
}
