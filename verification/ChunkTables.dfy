/** The tables of the chunk tier as maps, and what the deletes promise about them. */
module ChunkTables {
  import opened Options

  type ChunkId = string
  type SourceId = string
  type TreeId = string
  type SummaryId = string
  type Path = string

  const RAW_FILE_GATE_KIND := "raw_file"

  datatype SourceKind = Chat | Email | Document

  function KindName(kind: SourceKind): string {
    match kind
    case Chat => "chat"
    case Email => "email"
    case Document => "document"
  }

  function ParseKind(name: string): Option<SourceKind> {
    if name == "chat" then Some(Chat)
    else if name == "email" then Some(Email)
    else if name == "document" then Some(Document)
    else None
  }

  datatype TreeKind = Source | Topic | Global | Flavoured

  datatype ChunkRow = ChunkRow(
    sourceKind: string,
    sourceId: SourceId,
    pathScope: Option<string>,
    owner: string,
    contentPath: Option<Path>,
    rawRefs: Option<string>
  )

  datatype EntityRow = EntityRow(surface: string, treeId: Option<TreeId>)
  datatype TreeRow = TreeRow(kind: TreeKind, scope: string)
  datatype SummaryRow = SummaryRow(treeId: TreeId, contentPath: Option<Path>)

  /** A gate is the kind and the id of a source that was ingested. */
  type Gate = (string, string)

  datatype Tables = Tables(
    chunks: map<ChunkId, ChunkRow>,
    scores: map<ChunkId, string>,
    entityIndex: map<(string, string), EntityRow>,        // by entity and node
    embeddings: map<(ChunkId, string), string>,           // by chunk and model signature
    reembedSkipped: map<(ChunkId, string), string>,
    gates: set<Gate>,
    trees: map<TreeId, TreeRow>,
    summaries: map<SummaryId, SummaryRow>,
    summaryEmbeddings: map<(SummaryId, string), string>,
    summarySkipped: map<(SummaryId, string), string>,
    buffers: map<(TreeId, nat), string>
  )

  datatype DeleteFilter =
    | ExactSource(value: string)
    | SourcePrefix(value: string)
    | Owner(value: string)
    | ById(value: string)

  /** Reads the raw-file pointers of a chunk; nothing when the column is malformed. */
  type ParseRefs = string -> Option<seq<Path>>

  // ---------- selection ----------

  predicate Selected(kind: SourceKind, filter: DeleteFilter, id: ChunkId, row: ChunkRow) {
    match filter
    case ExactSource(s) => row.sourceKind == KindName(kind) && row.sourceId == s
    case SourcePrefix(p) => row.sourceKind == KindName(kind) && p <= row.sourceId
    case Owner(o) => row.sourceKind == KindName(kind) && row.owner == o
    case ById(i) => id == i
  }

  function SelectedRows(chunks: map<ChunkId, ChunkRow>, kind: SourceKind, filter: DeleteFilter): map<ChunkId, ChunkRow> {
    map id | id in chunks && Selected(kind, filter, id, chunks[id]) :: chunks[id]
  }

  function Selection(t: Tables, kind: SourceKind, filter: DeleteFilter): map<ChunkId, ChunkRow> {
    SelectedRows(t.chunks, kind, filter)
  }

  function ScopeOf(row: ChunkRow): string {
    GetOr(row.pathScope, row.sourceId)
  }

  /** The row's path scope, or its source id where it has none, is the scope. */
  predicate InScope(row: ChunkRow, scope: string) {
    if row.pathScope.Some? then row.pathScope.value == scope else row.sourceId == scope
  }

  function RefsOf(parse: ParseRefs, row: ChunkRow): Option<seq<Path>> {
    if row.rawRefs.Some? then parse(row.rawRefs.value) else None
  }

  /** A pointer column that is there but cannot be read. */
  predicate Corrupt(parse: ParseRefs, row: ChunkRow) {
    row.rawRefs.Some? && row.rawRefs.value != "" && parse(row.rawRefs.value).None?
  }

  /** The row points to the raw file. */
  predicate PointsTo(parse: ParseRefs, row: ChunkRow, path: Path) {
    row.rawRefs.Some? && row.rawRefs.value != "" && parse(row.rawRefs.value).Some? && path in parse(row.rawRefs.value).value
  }

  /** A body or raw file the chunk points to. */
  predicate ChunkFile(row: ChunkRow, parse: ParseRefs, p: Path) {
    (p != "" && row.contentPath == Some(p)) || PointsTo(parse, row, p)
  }

  /** A chunk or summary of the tables points to the file. */
  ghost predicate Referenced(t: Tables, parse: ParseRefs, p: Path) {
    || (exists c :: c in t.chunks && ChunkFile(t.chunks[c], parse, p))
    || (exists s :: s in t.summaries && p != "" && t.summaries[s].contentPath == Some(p))
  }

  // ---------- what a filtered delete removes ----------

  function Survivors(t: Tables, kind: SourceKind, filter: DeleteFilter): map<ChunkId, ChunkRow> {
    t.chunks - Selection(t, kind, filter).Keys
  }

  /** Raw files the deleted chunks point to, when no surviving row points to them or cannot be read. */
  predicate RawRemoved(parse: ParseRefs, selection: map<ChunkId, ChunkRow>, survivors: map<ChunkId, ChunkRow>, path: Path) {
    && (exists id :: id in selection && RefsOf(parse, selection[id]).Some? && path in RefsOf(parse, selection[id]).value)
    && (forall id :: id in survivors ==> !Corrupt(parse, survivors[id]) && !PointsTo(parse, survivors[id], path))
  }

  /** The gate of a source of this kind that the delete names, or that lost its last chunk. */
  predicate SourceGateRemoved(kind: SourceKind, filter: DeleteFilter, selection: map<ChunkId, ChunkRow>,
                              survivors: map<ChunkId, ChunkRow>, gate: Gate) {
    gate.0 == KindName(kind)
    && (|| (filter.ExactSource? && gate.1 == filter.value)
        || (filter.SourcePrefix? && filter.value <= gate.1)
        || ((exists id :: id in selection && selection[id].sourceId == gate.1)
            && forall id :: id in survivors ==> !(survivors[id].sourceKind == gate.0 && survivors[id].sourceId == gate.1)))
  }

  /** No chunk of the kind keeps the scope. */
  predicate ScopeOrphaned(kind: SourceKind, survivors: map<ChunkId, ChunkRow>, scope: string) {
    forall id :: id in survivors ==> !(survivors[id].sourceKind == KindName(kind) && ScopeOf(survivors[id]) == scope)
  }

  /** A source tree whose scope the delete orphaned. */
  predicate TreeRemoved(t: Tables, kind: SourceKind, selection: map<ChunkId, ChunkRow>, survivors: map<ChunkId, ChunkRow>, id: TreeId) {
    id in t.trees && t.trees[id].kind == Source
    && (exists c :: c in selection && ScopeOf(selection[c]) == t.trees[id].scope)
    && ScopeOrphaned(kind, survivors, t.trees[id].scope)
  }

  function RemovedTrees(t: Tables, kind: SourceKind, filter: DeleteFilter): set<TreeId> {
    set id | id in t.trees && TreeRemoved(t, kind, Selection(t, kind, filter), Survivors(t, kind, filter), id)
  }

  function EntitiesElsewhere(m: map<(string, string), EntityRow>, trees: set<TreeId>): map<(string, string), EntityRow> {
    map k | k in m && !(m[k].treeId.Some? && m[k].treeId.value in trees) :: m[k]
  }

  function SummariesElsewhere(m: map<SummaryId, SummaryRow>, trees: set<TreeId>): map<SummaryId, SummaryRow> {
    map s | s in m && m[s].treeId !in trees :: m[s]
  }

  /** Rows keyed by a summary, without those of the trees. */
  function RowsElsewhere(summaries: map<SummaryId, SummaryRow>, m: map<(SummaryId, string), string>, trees: set<TreeId>)
    : map<(SummaryId, string), string>
  {
    map k | k in m && !(k.0 in summaries && summaries[k.0].treeId in trees) :: m[k]
  }

  function BuffersElsewhere(m: map<(TreeId, nat), string>, trees: set<TreeId>): map<(TreeId, nat), string> {
    map k | k in m && k.0 !in trees :: m[k]
  }

  /** The tables without some trees and everything that hangs on them. */
  function WithoutTrees(t: Tables, trees: set<TreeId>): Tables {
    t.(entityIndex := EntitiesElsewhere(t.entityIndex, trees),
       trees := t.trees - trees,
       summaries := SummariesElsewhere(t.summaries, trees),
       summaryEmbeddings := RowsElsewhere(t.summaries, t.summaryEmbeddings, trees),
       summarySkipped := RowsElsewhere(t.summaries, t.summarySkipped, trees),
       buffers := BuffersElsewhere(t.buffers, trees))
  }

  function EntitiesOfOthers(m: map<(string, string), EntityRow>, ids: set<ChunkId>): map<(string, string), EntityRow> {
    map k | k in m && k.1 !in ids :: m[k]
  }

  function RowsOfOthers(m: map<(ChunkId, string), string>, ids: set<ChunkId>): map<(ChunkId, string), string> {
    map k | k in m && k.0 !in ids :: m[k]
  }

  /** The tables without some chunks and the rows keyed by them. */
  function WithoutChunks(t: Tables, ids: set<ChunkId>): Tables {
    t.(chunks := t.chunks - ids,
       scores := t.scores - ids,
       entityIndex := EntitiesOfOthers(t.entityIndex, ids),
       embeddings := RowsOfOthers(t.embeddings, ids),
       reembedSkipped := RowsOfOthers(t.reembedSkipped, ids))
  }

  function RemovedGates(t: Tables, parse: ParseRefs, kind: SourceKind, filter: DeleteFilter): set<Gate> {
    var selection, survivors := Selection(t, kind, filter), Survivors(t, kind, filter);
    set g | g in t.gates
            && ((g.0 == RAW_FILE_GATE_KIND && RawRemoved(parse, selection, survivors, g.1))
                || SourceGateRemoved(kind, filter, selection, survivors, g))
  }

  /** The tables after a filtered delete. */
  function AfterDelete(t: Tables, parse: ParseRefs, kind: SourceKind, filter: DeleteFilter): Tables {
    WithoutTrees(WithoutChunks(t, Selection(t, kind, filter).Keys), RemovedTrees(t, kind, filter))
      .(gates := t.gates - RemovedGates(t, parse, kind, filter))
  }

  /** Files handed to the best-effort removal after the commit. */
  predicate FileRemoved(t: Tables, parse: ParseRefs, kind: SourceKind, filter: DeleteFilter, path: Path) {
    var selection, survivors := Selection(t, kind, filter), Survivors(t, kind, filter);
    || (path != "" && exists id :: id in selection && selection[id].contentPath == Some(path))
    || RawRemoved(parse, selection, survivors, path)
    || (path != "" && exists s :: s in t.summaries && t.summaries[s].treeId in RemovedTrees(t, kind, filter)
                                   && t.summaries[s].contentPath == Some(path))
  }

  // ---------- what that promises ----------

  /** Keys the schema enforces: children name their parents, and a kind and scope name one tree. */
  ghost predicate Valid(t: Tables) {
    && (forall k :: k in t.embeddings ==> k.0 in t.chunks)
    && (forall k :: k in t.reembedSkipped ==> k.0 in t.chunks)
    && (forall s :: s in t.summaries ==> t.summaries[s].treeId in t.trees)
    && (forall k :: k in t.summaryEmbeddings ==> k.0 in t.summaries)
    && (forall k :: k in t.summarySkipped ==> k.0 in t.summaries)
    && (forall k :: k in t.buffers ==> k.0 in t.trees)
    && (forall a, b :: a in t.trees && b in t.trees && t.trees[a] == t.trees[b] ==> a == b)
  }

  /** No dependent row names a deleted chunk, a removed tree or a summary of one, and the schema's keys still hold. */
  lemma DeleteLeavesNoDangling(t: Tables, parse: ParseRefs, kind: SourceKind, filter: DeleteFilter)
    requires Valid(t)
    ensures var after, gone := AfterDelete(t, parse, kind, filter), Selection(t, kind, filter).Keys;
            && Valid(after)
            && (forall id :: id in after.scores ==> id !in gone)
            && (forall k :: k in after.entityIndex ==> k.1 !in gone)
            && (forall k :: k in after.embeddings ==> k.0 !in gone)
            && (forall k :: k in after.reembedSkipped ==> k.0 !in gone)
            && (forall k :: k in after.entityIndex && after.entityIndex[k].treeId.Some? && after.entityIndex[k].treeId.value in t.trees ==>
                  after.entityIndex[k].treeId.value in after.trees)
  {
    hide TreeRemoved, Selected;
  }

  /** The row is filed under a tree that is there before and gone after. */
  predicate FiledUnderRemoved(t: Tables, after: Tables, row: EntityRow) {
    row.treeId.Some? && row.treeId.value in t.trees && row.treeId.value !in after.trees
  }

  /** Everything keyed by another chunk stays as it was, except exactly the entity rows filed under a removed tree. */
  lemma DeleteKeepsSurvivors(t: Tables, parse: ParseRefs, kind: SourceKind, filter: DeleteFilter)
    ensures var after, gone := AfterDelete(t, parse, kind, filter), Selection(t, kind, filter).Keys;
            && after.chunks == t.chunks - gone
            && (forall id :: id in t.scores && id !in gone ==> id in after.scores && after.scores[id] == t.scores[id])
            && (forall k :: k in t.embeddings && k.0 !in gone ==> k in after.embeddings && after.embeddings[k] == t.embeddings[k])
            && (forall k :: k in t.reembedSkipped && k.0 !in gone ==>
                  k in after.reembedSkipped && after.reembedSkipped[k] == t.reembedSkipped[k])
            && (forall k :: k in t.entityIndex && k.1 !in gone ==>
                  (k in after.entityIndex <==> !FiledUnderRemoved(t, after, t.entityIndex[k])))
            && (forall k :: k in after.entityIndex ==> k in t.entityIndex && after.entityIndex[k] == t.entityIndex[k])
  {
    hide TreeRemoved, Selected;
  }

  /** The tables after a delete, one by one. */
  lemma DeleteParts(t: Tables, parse: ParseRefs, kind: SourceKind, filter: DeleteFilter)
    ensures var after, trees := AfterDelete(t, parse, kind, filter), RemovedTrees(t, kind, filter);
            && after.chunks == Survivors(t, kind, filter)
            && after.trees == t.trees - trees
            && after.summaries == SummariesElsewhere(t.summaries, trees)
            && after.gates == t.gates - RemovedGates(t, parse, kind, filter)
  {
    hide Selection, RemovedTrees, RemovedGates, SummariesElsewhere;
  }

  /** Deleting again finds nothing to do: no row goes, and no file is handed out a second time. */
  lemma DeleteTwice(t: Tables, parse: ParseRefs, kind: SourceKind, filter: DeleteFilter)
    ensures var after := AfterDelete(t, parse, kind, filter);
            AfterDelete(after, parse, kind, filter) == after && forall p :: !FileRemoved(after, parse, kind, filter, p)
  {
    var after := AfterDelete(t, parse, kind, filter);
    NothingSelected(t, parse, kind, filter);
    NamedGatesGone(t, parse, kind, filter);
    NothingRemoved(after, parse, kind, filter);
  }

  lemma NothingRemoved(t: Tables, parse: ParseRefs, kind: SourceKind, filter: DeleteFilter)
    requires Selection(t, kind, filter) == map[] && RemovedGates(t, parse, kind, filter) == {}
    requires forall p :: !RawRemoved(parse, Selection(t, kind, filter), Survivors(t, kind, filter), p)
    ensures AfterDelete(t, parse, kind, filter) == t && forall p :: !FileRemoved(t, parse, kind, filter, p)
  {
    hide Selection, Survivors, RemovedGates, RawRemoved, WithoutTrees, WithoutChunks, ScopeOrphaned;
    assert RemovedTrees(t, kind, filter) == {};
    WithoutNothing(t);
    assert Selection(t, kind, filter).Keys == {};
    assert t.(gates := t.gates - {}) == t;
  }

  lemma NothingSelected(t: Tables, parse: ParseRefs, kind: SourceKind, filter: DeleteFilter)
    ensures Selection(AfterDelete(t, parse, kind, filter), kind, filter) == map[]
  {
    hide Selected, RemovedTrees, RemovedGates;
    assert AfterDelete(t, parse, kind, filter).chunks == t.chunks - Selection(t, kind, filter).Keys;
  }

  /** With nothing selected only gates the filter names could go, and those are gone already. */
  lemma NamedGatesGone(t: Tables, parse: ParseRefs, kind: SourceKind, filter: DeleteFilter)
    ensures var after := AfterDelete(t, parse, kind, filter);
            RemovedGates(after, parse, kind, filter) == {} && forall p :: !RawRemoved(parse, Selection(after, kind, filter), Survivors(after, kind, filter), p)
  {
    NothingSelected(t, parse, kind, filter);
    var after := AfterDelete(t, parse, kind, filter);
    forall g | g in after.gates
      ensures !SourceGateRemoved(kind, filter, Selection(after, kind, filter), Survivors(after, kind, filter), g)
    {
      hide Selected, RawRemoved, Survivors, RemovedTrees;
      assert !SourceGateRemoved(kind, filter, Selection(t, kind, filter), Survivors(t, kind, filter), g);
    }
    hide SourceGateRemoved;
  }

  lemma WithoutNothing(t: Tables)
    ensures WithoutTrees(WithoutChunks(t, {}), {}) == t
  {
    assert EntitiesOfOthers(t.entityIndex, {}) == t.entityIndex == EntitiesElsewhere(t.entityIndex, {});
    assert RowsOfOthers(t.embeddings, {}) == t.embeddings && RowsOfOthers(t.reembedSkipped, {}) == t.reembedSkipped;
    assert SummariesElsewhere(t.summaries, {}) == t.summaries && BuffersElsewhere(t.buffers, {}) == t.buffers;
    assert RowsElsewhere(t.summaries, t.summaryEmbeddings, {}) == t.summaryEmbeddings;
    assert RowsElsewhere(t.summaries, t.summarySkipped, {}) == t.summarySkipped;
    assert t.chunks - {} == t.chunks && t.scores - {} == t.scores && t.trees - {} == t.trees;
  }

  // ---------- which chunks and gates go ----------

  /** By source id, by prefix of the source id and by owner only chunks of the kind go; by id exactly that chunk.  What stays is unchanged. */
  ghost predicate DeletesRows(before: map<ChunkId, ChunkRow>, after: map<ChunkId, ChunkRow>, kind: SourceKind, filter: DeleteFilter) {
    && (forall c :: c in after ==> c in before && after[c] == before[c])
    && (filter.ExactSource? ==> forall c :: c in before ==>
          (c !in after <==> before[c].sourceKind == KindName(kind) && before[c].sourceId == filter.value))
    && (filter.SourcePrefix? ==> forall c :: c in before ==>
          (c !in after <==> before[c].sourceKind == KindName(kind) && StartsWith(before[c].sourceId, filter.value)))
    && (filter.Owner? ==> forall c :: c in before ==>
          (c !in after <==> before[c].sourceKind == KindName(kind) && before[c].owner == filter.value))
    && (filter.ById? ==> forall c :: c in before ==> (c !in after <==> c == filter.value))
  }

  lemma ChunksGone(t: Tables, parse: ParseRefs, kind: SourceKind, filter: DeleteFilter)
    ensures DeletesRows(t.chunks, AfterDelete(t, parse, kind, filter).chunks, kind, filter)
  {
    hide RemovedTrees, RemovedGates, KindName;
    DeleteParts(t, parse, kind, filter);
    hide AfterDelete;
    assert forall s: string, p: string :: StartsWith(s, p) <==> p <= s;
  }

  predicate StartsWith(s: string, p: string) {
    |p| <= |s| && forall i :: 0 <= i < |p| ==> s[i] == p[i]
  }

  /** The delete was for this source, or for a prefix of its id. */
  predicate NamesSource(filter: DeleteFilter, source: SourceId) {
    (filter.ExactSource? && source == filter.value) || (filter.SourcePrefix? && StartsWith(source, filter.value))
  }

  /** Of the gates of sources, exactly those of the kind go that the delete names, or that had a deleted chunk and have none left. */
  lemma SourceGatesGone(t: Tables, parse: ParseRefs, kind: SourceKind, filter: DeleteFilter, gate: Gate)
    requires gate in t.gates && gate.0 != RAW_FILE_GATE_KIND
    ensures var after := AfterDelete(t, parse, kind, filter);
            (gate !in after.gates <==>
             gate.0 == KindName(kind)
             && (|| NamesSource(filter, gate.1)
                 || ((exists c :: c in t.chunks && c !in after.chunks && t.chunks[c].sourceId == gate.1)
                     && forall c :: c in after.chunks ==> !(after.chunks[c].sourceKind == gate.0 && after.chunks[c].sourceId == gate.1))))
  {
    hide RemovedTrees, RawRemoved, KindName, Selected;
    DeleteParts(t, parse, kind, filter);
    var after, selection := AfterDelete(t, parse, kind, filter), Selection(t, kind, filter);
    assert forall c :: c in selection <==> c in t.chunks && c !in after.chunks;
    assert forall s: string, p: string :: StartsWith(s, p) <==> p <= s;
    hide AfterDelete, StartsWith;
  }

  // ---------- entity rows of surviving chunks ----------

  predicate Survives(t: Tables, kind: SourceKind, filter: DeleteFilter, c: ChunkId) {
    c in t.chunks && !Selected(kind, filter, c, t.chunks[c])
  }

  /** A deleted chunk had the scope, and no surviving chunk of the kind has it. */
  ghost predicate LosesScope(t: Tables, kind: SourceKind, filter: DeleteFilter, scope: string) {
    && (exists c :: c in t.chunks && Selected(kind, filter, c, t.chunks[c]) && InScope(t.chunks[c], scope))
    && (forall c :: Survives(t, kind, filter, c) && t.chunks[c].sourceKind == KindName(kind) ==> !InScope(t.chunks[c], scope))
  }

  /** An entity row of the chunk is filed under the source tree of the scope. */
  predicate FiledUnderScope(t: Tables, k: (string, string), c: ChunkId, scope: string) {
    k in t.entityIndex && k.1 == c && t.entityIndex[k].treeId.Some? && t.entityIndex[k].treeId.value in t.trees
    && t.trees[t.entityIndex[k].treeId.value] == TreeRow(Source, scope)
  }

  predicate LosesEntities(t: Tables, after: Tables, c: ChunkId) {
    exists k :: k in t.entityIndex && k.1 == c && k !in after.entityIndex
  }

  lemma SelectionMeans(t: Tables, kind: SourceKind, filter: DeleteFilter, c: ChunkId)
    ensures c in Survivors(t, kind, filter) <==> Survives(t, kind, filter, c)
    ensures c in Selection(t, kind, filter) <==> c in t.chunks && Selected(kind, filter, c, t.chunks[c])
    ensures c in Survivors(t, kind, filter) ==> Survivors(t, kind, filter)[c] == t.chunks[c]
    ensures c in Selection(t, kind, filter) ==> Selection(t, kind, filter)[c] == t.chunks[c]
  {
    hide Selected;
  }

  lemma ScopeLost(t: Tables, kind: SourceKind, filter: DeleteFilter, scope: string)
    ensures (exists c :: c in Selection(t, kind, filter) && ScopeOf(Selection(t, kind, filter)[c]) == scope)
            && ScopeOrphaned(kind, Survivors(t, kind, filter), scope)
       <==> LosesScope(t, kind, filter, scope)
  {
    forall c
      ensures c in Survivors(t, kind, filter) <==> Survives(t, kind, filter, c)
      ensures c in Selection(t, kind, filter) <==> c in t.chunks && Selected(kind, filter, c, t.chunks[c])
      ensures c in Survivors(t, kind, filter) ==> Survivors(t, kind, filter)[c] == t.chunks[c]
      ensures c in Selection(t, kind, filter) ==> Selection(t, kind, filter)[c] == t.chunks[c]
    {
      SelectionMeans(t, kind, filter, c);
    }
    assert forall row: ChunkRow :: ScopeOf(row) == scope <==> InScope(row, scope);
    hide Selection, Survivors, Survives, Selected, ScopeOf, InScope;
  }

  /** Exactly the source trees of lost scopes go. */
  lemma TreeGone(t: Tables, parse: ParseRefs, kind: SourceKind, filter: DeleteFilter, x: TreeId)
    requires x in t.trees
    ensures x !in AfterDelete(t, parse, kind, filter).trees <==> t.trees[x].kind == Source && LosesScope(t, kind, filter, t.trees[x].scope)
  {
    hide Selection, Survivors, LosesScope, AfterDelete, ScopeOrphaned;
    DeleteParts(t, parse, kind, filter);
    ScopeLost(t, kind, filter, t.trees[x].scope);
  }

  /** A surviving chunk loses an entity row exactly when one of its rows is filed under the source tree of a scope the delete empties. */
  lemma SurvivorLosesEntities(t: Tables, parse: ParseRefs, kind: SourceKind, filter: DeleteFilter, c: ChunkId)
    requires Survives(t, kind, filter, c)
    ensures LosesEntities(t, AfterDelete(t, parse, kind, filter), c)
       <==> exists k, scope :: FiledUnderScope(t, k, c, scope) && LosesScope(t, kind, filter, scope)
  {
    var after := AfterDelete(t, parse, kind, filter);
    DeleteKeepsSurvivors(t, parse, kind, filter);
    assert c !in Selection(t, kind, filter);
    hide AfterDelete, LosesScope, Survives, Selection;
    forall k | k in t.entityIndex && k.1 == c
      ensures k !in after.entityIndex <==> exists scope: string :: FiledUnderScope(t, k, c, scope) && LosesScope(t, kind, filter, scope)
    {
      var row := t.entityIndex[k];
      if row.treeId.Some? && row.treeId.value in t.trees {
        TreeGone(t, parse, kind, filter, row.treeId.value);
        var tree := t.trees[row.treeId.value];
        assert tree.kind == Source ==> FiledUnderScope(t, k, c, tree.scope);
      }
    }
  }

  /** Rows of a chunk filed under a source tree are filed under that of its own scope. */
  ghost predicate FiledAtHome(t: Tables) {
    forall k: (string, string), scope: string :: k.1 in t.chunks && FiledUnderScope(t, k, k.1, scope) ==> InScope(t.chunks[k.1], scope)
  }

  /** Another kind's chunk with a filed row and a scope the delete empties. */
  ghost predicate Bystander(t: Tables, kind: SourceKind, filter: DeleteFilter, c: ChunkId) {
    && Survives(t, kind, filter, c) && t.chunks[c].sourceKind != KindName(kind)
    && exists k, scope :: InScope(t.chunks[c], scope) && LosesScope(t, kind, filter, scope) && FiledUnderScope(t, k, c, scope)
  }

  /**
   * Trees are found by scope alone, so a chunk of another kind with the same scope can lose its
   * rows: all surviving chunks keep all their entity rows exactly when there is no such chunk.
   * Chunks of the kind that is deleted never lose any.
   */
  lemma SurvivorsKeepEntities(t: Tables, parse: ParseRefs, kind: SourceKind, filter: DeleteFilter)
    requires FiledAtHome(t)
    ensures var after := AfterDelete(t, parse, kind, filter);
            && ((forall c :: Survives(t, kind, filter, c) ==> !LosesEntities(t, after, c)) <==> forall c :: !Bystander(t, kind, filter, c))
            && forall c :: Survives(t, kind, filter, c) && t.chunks[c].sourceKind == KindName(kind) ==> !LosesEntities(t, after, c)
  {
    var after := AfterDelete(t, parse, kind, filter);
    hide AfterDelete, LosesEntities, FiledUnderScope;
    forall c | Survives(t, kind, filter, c) ensures LosesEntities(t, after, c) <==> Bystander(t, kind, filter, c) {
      SurvivorLosesEntities(t, parse, kind, filter, c);
      OnlyHome(t, c);
    }
  }

  lemma OnlyHome(t: Tables, c: ChunkId)
    requires FiledAtHome(t) && c in t.chunks
    ensures forall k, scope :: FiledUnderScope(t, k, c, scope) ==> InScope(t.chunks[c], scope)
  {
    forall k, scope | FiledUnderScope(t, k, c, scope) ensures InScope(t.chunks[c], scope) {
      assert FiledUnderScope(t, k, k.1, scope);
    }
  }

  /**
   * A chat chunk and an email chunk share the scope "s"; deleting the chat source takes the email
   * chunk's entity row.  Ingest files the rows of chunks under no tree, so the row comes from a
   * caller of `persist_score` or `index_entities` that names a tree.
   */
  lemma EmailLosesEntity(parse: ParseRefs)
    ensures var chat := ChunkRow("chat", "s", None, "me", None, None);
            var email := ChunkRow("email", "s", None, "me", None, None);
            var t := Tables(map["c" := chat, "e" := email], map[], map[("x", "e") := EntityRow("X", Some("tree"))], map[], map[], {},
                            map["tree" := TreeRow(Source, "s")], map[], map[], map[], map[]);
            && Valid(t) && FiledAtHome(t) && Survives(t, Chat, ExactSource("s"), "e")
            && LosesEntities(t, AfterDelete(t, parse, Chat, ExactSource("s")), "e")
  {
    var chat := ChunkRow("chat", "s", None, "me", None, None);
    var email := ChunkRow("email", "s", None, "me", None, None);
    var t := Tables(map["c" := chat, "e" := email], map[], map[("x", "e") := EntityRow("X", Some("tree"))], map[], map[], {},
                    map["tree" := TreeRow(Source, "s")], map[], map[], map[], map[]);
    assert "email" != "chat" && "c" != "e";
    assert Survives(t, Chat, ExactSource("s"), "e");
    assert Selected(Chat, ExactSource("s"), "c", t.chunks["c"]) && InScope(t.chunks["c"], "s");
    assert LosesScope(t, Chat, ExactSource("s"), "s");
    assert FiledUnderScope(t, ("x", "e"), "e", "s");
    SurvivorLosesEntities(t, parse, Chat, ExactSource("s"), "e");
  }

  // ---------- files ----------

  /** The pointer column can be read and has the path. */
  predicate Reads(parse: ParseRefs, rawRefs: Option<string>, path: Path) {
    rawRefs.Some? && parse(rawRefs.value).Some? && path in parse(rawRefs.value).value
  }

  /** A chunk deleted by this delete points to the raw file, and no chunk that is left does or is unreadable. */
  ghost predicate Unreachable(before: map<ChunkId, ChunkRow>, after: map<ChunkId, ChunkRow>, parse: ParseRefs, path: Path) {
    && (exists c :: c in before && c !in after && Reads(parse, before[c].rawRefs, path))
    && (forall c :: c in after && after[c].rawRefs.Some? && after[c].rawRefs.value != "" ==>
          parse(after[c].rawRefs.value).Some? && path !in parse(after[c].rawRefs.value).value)
  }

  lemma UnreachableIsRemoved(t: Tables, parse: ParseRefs, kind: SourceKind, filter: DeleteFilter, path: Path)
    ensures RawRemoved(parse, Selection(t, kind, filter), Survivors(t, kind, filter), path)
       <==> Unreachable(t.chunks, AfterDelete(t, parse, kind, filter).chunks, parse, path)
  {
    assert forall row: ChunkRow :: Reads(parse, row.rawRefs, path) <==> RefsOf(parse, row).Some? && path in RefsOf(parse, row).value;
    hide Selected, RemovedTrees, RemovedGates, RefsOf, Reads;
    var selection, after := Selection(t, kind, filter), AfterDelete(t, parse, kind, filter).chunks;
    assert after == Survivors(t, kind, filter);
    assert forall c :: c in selection <==> c in t.chunks && c !in after;
  }

  /** No chunk or summary has the path as its own content file. */
  predicate NoBody(t: Tables, p: Path) {
    p != "" ==> && (forall c :: c in t.chunks ==> t.chunks[c].contentPath != Some(p))
                && (forall s :: s in t.summaries ==> t.summaries[s].contentPath != Some(p))
  }

  /**
   * A raw file and its gate are removed exactly when a deleted chunk pointed to the file, no chunk
   * that is left does, and no pointer that is left is unreadable.
   */
  lemma RawFilesAreUnreachable(t: Tables, parse: ParseRefs, kind: SourceKind, filter: DeleteFilter, path: Path)
    ensures var after := AfterDelete(t, parse, kind, filter);
            && ((RAW_FILE_GATE_KIND, path) in t.gates ==>
                  ((RAW_FILE_GATE_KIND, path) !in after.gates <==> Unreachable(t.chunks, after.chunks, parse, path)))
            && (NoBody(t, path) ==> (FileRemoved(t, parse, kind, filter, path) <==> Unreachable(t.chunks, after.chunks, parse, path)))
  {
    assert KindName(kind) != RAW_FILE_GATE_KIND;
    UnreachableIsRemoved(t, parse, kind, filter, path);
    hide RawRemoved, Selected, Unreachable, RemovedTrees;
  }

  /** A content file the delete hands out: of a deleted chunk, or of a summary of a removed tree. */
  ghost predicate GivenUp(t: Tables, after: Tables, p: Path) {
    && p != ""
    && (|| (exists c :: c in t.chunks && c !in after.chunks && t.chunks[c].contentPath == Some(p))
        || (exists s :: s in t.summaries && s !in after.summaries && t.summaries[s].contentPath == Some(p)))
  }

  /** A content file that is still in use: of a chunk or summary that is left. */
  ghost predicate InUse(after: Tables, p: Path) {
    && p != ""
    && (|| (exists c :: c in after.chunks && after.chunks[c].contentPath == Some(p))
        || (exists s :: s in after.summaries && after.summaries[s].contentPath == Some(p)))
  }

  /** A chunk that is left points to the file as a raw file. */
  ghost predicate StillRaw(after: Tables, parse: ParseRefs, p: Path) {
    exists c :: c in after.chunks && PointsTo(parse, after.chunks[c], p)
  }

  lemma FilesMeaning(t: Tables, parse: ParseRefs, kind: SourceKind, filter: DeleteFilter, p: Path)
    ensures var after := AfterDelete(t, parse, kind, filter);
            FileRemoved(t, parse, kind, filter, p) <==> GivenUp(t, after, p) || Unreachable(t.chunks, after.chunks, parse, p)
  {
    hide AfterDelete, Selection, Survivors, RawRemoved, Unreachable, RemovedTrees;
    UnreachableIsRemoved(t, parse, kind, filter, p);
    BodiesGone(t, parse, kind, filter, p);
    SummariesGone(t, parse, kind, filter, p);
  }

  lemma BodiesGone(t: Tables, parse: ParseRefs, kind: SourceKind, filter: DeleteFilter, p: Path)
    ensures var after, selection := AfterDelete(t, parse, kind, filter), Selection(t, kind, filter);
            ((exists c :: c in selection && selection[c].contentPath == Some(p))
             <==> (exists c :: c in t.chunks && c !in after.chunks && t.chunks[c].contentPath == Some(p)))
  {
    hide AfterDelete, Selected, RemovedTrees, RemovedGates;
    DeleteParts(t, parse, kind, filter);
    assert forall c :: c in Selection(t, kind, filter) <==> c in t.chunks && c !in Survivors(t, kind, filter);
  }

  lemma SummariesGone(t: Tables, parse: ParseRefs, kind: SourceKind, filter: DeleteFilter, p: Path)
    ensures var after, trees := AfterDelete(t, parse, kind, filter), RemovedTrees(t, kind, filter);
            ((exists s :: s in t.summaries && t.summaries[s].treeId in trees && t.summaries[s].contentPath == Some(p))
             <==> (exists s :: s in t.summaries && s !in after.summaries && t.summaries[s].contentPath == Some(p)))
  {
    hide AfterDelete, RemovedTrees, RemovedGates, Survivors;
    DeleteParts(t, parse, kind, filter);
  }

  lemma ReferencedMeans(t: Tables, parse: ParseRefs, p: Path)
    ensures Referenced(t, parse, p) <==> InUse(t, p) || StillRaw(t, parse, p)
  {
    hide PointsTo;
  }

  /**
   * The delete checks references before it hands out a raw file, but not before it hands out a
   * content file: no file that is still referenced is removed exactly when no row that is left
   * shares a content file with a deleted row, has it as a raw file, or has as its content file a
   * raw file that became unreachable.
   */
  lemma RemovedFilesAreUnreferenced(t: Tables, parse: ParseRefs, kind: SourceKind, filter: DeleteFilter)
    ensures var after := AfterDelete(t, parse, kind, filter);
            ((forall p :: FileRemoved(t, parse, kind, filter, p) ==> !Referenced(after, parse, p))
             <==> && (forall p :: GivenUp(t, after, p) ==> !InUse(after, p) && !StillRaw(after, parse, p))
                  && (forall p :: Unreachable(t.chunks, after.chunks, parse, p) ==> !InUse(after, p)))
  {
    var after := AfterDelete(t, parse, kind, filter);
    forall p
      ensures FileRemoved(t, parse, kind, filter, p) <==> GivenUp(t, after, p) || Unreachable(t.chunks, after.chunks, parse, p)
      ensures Referenced(after, parse, p) <==> InUse(after, p) || StillRaw(after, parse, p)
      ensures Unreachable(t.chunks, after.chunks, parse, p) ==> !StillRaw(after, parse, p)
    {
      FilesMeaning(t, parse, kind, filter, p);
      ReferencedMeans(after, parse, p);
    }
    hide FileRemoved, Referenced, GivenUp, InUse, StillRaw, Unreachable, AfterDelete;
  }

  /** Every content file belongs to one chunk or one summary, and none is also a raw file. */
  ghost predicate OwnFiles(t: Tables, parse: ParseRefs) {
    && (forall a, b :: a in t.chunks && b in t.chunks && SameFile(t.chunks[a].contentPath, t.chunks[b].contentPath) ==> a == b)
    && (forall a, b :: a in t.summaries && b in t.summaries && SameFile(t.summaries[a].contentPath, t.summaries[b].contentPath) ==> a == b)
    && (forall a, b :: a in t.chunks && b in t.summaries ==> !SameFile(t.chunks[a].contentPath, t.summaries[b].contentPath))
    && (forall a, p :: a in t.chunks && RefsOf(parse, t.chunks[a]).Some? && p in RefsOf(parse, t.chunks[a]).value ==> NoBody(t, p))
  }

  predicate SameFile(a: Option<Path>, b: Option<Path>) {
    a.Some? && a == b && a.value != ""
  }

  /** While content files are not shared, as the chunk and summary writers name them by row, no delete removes a file that is still referenced. */
  lemma OwnFilesAreSafe(t: Tables, parse: ParseRefs, kind: SourceKind, filter: DeleteFilter, p: Path)
    requires OwnFiles(t, parse) && FileRemoved(t, parse, kind, filter, p)
    ensures !Referenced(AfterDelete(t, parse, kind, filter), parse, p)
  {
    hide AfterDelete, FileRemoved, RefsOf, Corrupt, Selection, RemovedTrees;
    var after := AfterDelete(t, parse, kind, filter);
    DeleteParts(t, parse, kind, filter);
    FilesMeaning(t, parse, kind, filter, p);
    ReferencedMeans(after, parse, p);
    OwnFilesApart(t, after, parse, p);
  }

  lemma OwnFilesApart(t: Tables, after: Tables, parse: ParseRefs, p: Path)
    requires OwnFiles(t, parse)
    requires forall c :: c in after.chunks ==> c in t.chunks && after.chunks[c] == t.chunks[c]
    requires forall s :: s in after.summaries ==> s in t.summaries && after.summaries[s] == t.summaries[s]
    requires GivenUp(t, after, p) || Unreachable(t.chunks, after.chunks, parse, p)
    ensures !InUse(after, p) && !StillRaw(after, parse, p)
  {
    hide Corrupt;
    if GivenUp(t, after, p) {
      forall c | c in after.chunks ensures !PointsTo(parse, after.chunks[c], p) {
        RawHasNoBody(t, parse, c, p);
      }
    } else {
      assert NoBody(t, p);
    }
  }

  lemma RawHasNoBody(t: Tables, parse: ParseRefs, c: ChunkId, p: Path)
    requires OwnFiles(t, parse) && c in t.chunks
    ensures PointsTo(parse, t.chunks[c], p) ==> NoBody(t, p)
  {
    assert PointsTo(parse, t.chunks[c], p) ==> RefsOf(parse, t.chunks[c]).Some? && p in RefsOf(parse, t.chunks[c]).value;
  }

  /**
   * Two chunks of a source whose ids differ only in characters a file name cannot hold have one
   * content file when both are staged; deleting one of them by id removes the file of the other.
   */
  lemma SharedFileIsRemoved(parse: ParseRefs)
    ensures var row := ChunkRow("chat", "s", None, "me", Some("chat/s/a-1.md"), None);
            var t := Tables(map["a:1" := row, "a/1" := row], map[], map[], map[], map[], {}, map[], map[], map[], map[], map[]);
            && Valid(t) && FileRemoved(t, parse, Chat, ById("a:1"), "chat/s/a-1.md")
            && Referenced(AfterDelete(t, parse, Chat, ById("a:1")), parse, "chat/s/a-1.md")
  {
    var row := ChunkRow("chat", "s", None, "me", Some("chat/s/a-1.md"), None);
    var t := Tables(map["a:1" := row, "a/1" := row], map[], map[], map[], map[], {}, map[], map[], map[], map[], map[]);
    assert "a:1"[1] != "a/1"[1];
    assert "a:1" in Selection(t, Chat, ById("a:1")) && "a/1" in AfterDelete(t, parse, Chat, ById("a:1")).chunks;
    assert ChunkFile(t.chunks["a/1"], parse, "chat/s/a-1.md");
  }

  // ---------- gates and trees ----------

  /** A removed source gate has no surviving chunk of that kind and source. */
  lemma RemovedGatesAreOrphans(t: Tables, parse: ParseRefs, kind: SourceKind, filter: DeleteFilter, gate: Gate)
    requires gate in t.gates && gate !in AfterDelete(t, parse, kind, filter).gates && gate.0 != RAW_FILE_GATE_KIND
    ensures gate.0 == KindName(kind)
    ensures forall id :: id in AfterDelete(t, parse, kind, filter).chunks ==>
              var row := AfterDelete(t, parse, kind, filter).chunks[id]; !(row.sourceKind == gate.0 && row.sourceId == gate.1)
  {
    hide RawRemoved;
    assert SourceGateRemoved(kind, filter, Selection(t, kind, filter), Survivors(t, kind, filter), gate);
  }

  /** A gate whose source lost its last chunk is always removed. */
  lemma OrphanedGatesAreRemoved(t: Tables, parse: ParseRefs, kind: SourceKind, filter: DeleteFilter, id: ChunkId)
    requires id in Selection(t, kind, filter)
    requires forall c :: c in Survivors(t, kind, filter) ==>
               !(t.chunks[c].sourceKind == KindName(kind) && t.chunks[c].sourceId == t.chunks[id].sourceId)
    ensures (KindName(kind), t.chunks[id].sourceId) !in AfterDelete(t, parse, kind, filter).gates
  {
    hide RawRemoved;
    var gate := (KindName(kind), t.chunks[id].sourceId);
    assert Selection(t, kind, filter)[id].sourceId == gate.1;
    assert SourceGateRemoved(kind, filter, Selection(t, kind, filter), Survivors(t, kind, filter), gate);
  }

  /** A tree is removed only if it is a source tree whose scope a deleted chunk had and no chunk of the kind keeps. */
  lemma RemovedTreesAreOrphans(t: Tables, parse: ParseRefs, kind: SourceKind, filter: DeleteFilter, id: TreeId)
    requires id in t.trees && id !in AfterDelete(t, parse, kind, filter).trees
    ensures t.trees[id].kind == Source
    ensures exists c :: c in t.chunks && c !in AfterDelete(t, parse, kind, filter).chunks && InScope(t.chunks[c], t.trees[id].scope)
    ensures forall c :: c in AfterDelete(t, parse, kind, filter).chunks ==>
              var row := AfterDelete(t, parse, kind, filter).chunks[c];
              !(row.sourceKind == KindName(kind) && InScope(row, t.trees[id].scope))
  {
    hide Selected;
  }
}
