/** What of a schema a script carries there and back, and the draft read from
    one. */
module RoundTrip {
  import opened Options
  import opened Strings
  import opened Domain
  import opened Matching
  import opened Differ
  import opened EqualityLaws
  import opened Scanning
  import opened Generator
  import opened ScriptTokens
  import opened Script
  import opened ScriptScan
  import opened TableParser
  import opened ParseTable
  import opened SqlReader
  import opened ReaderLaws
  import opened ReadBack
  import opened DraftBack
  import opened CommentsBack

  // ----- what a script carries -----

  ghost predicate CarriedTable(e: Entity, includePositions: bool) {
    && TableReadable(e) && (includePositions ==> OneLine(Trim(e.name)))
    && forall k :: 0 <= k < |e.attributes| ==> DefaultLexes(e.attributes[k])
  }

  /** A script of this schema can be read: there is a table, names are apart,
      references resolve, and no default reaches past its column. */
  ghost predicate Carried(s: Schema, includePositions: bool) {
    && s.entities != [] && DistinctTables(s.entities) && KeysResolve(s)
    && forall i :: 0 <= i < |s.entities| ==> CarriedTable(s.entities[i], includePositions)
  }

  /** A column whose type, default, key and comment are as a script gives them. */
  predicate KeptColumnWhole(a: Attribute) {
    && FitsKind(a.dataType) && StableDefault(a) && ColumnCommentable(a)
    && (a.primaryKey ==> a.unique && !a.nullable)
  }

  predicate NamesTrimmed(e: Entity) {
    Trimmed(e.name) && forall k :: 0 <= k < |e.attributes| ==> Trimmed(e.attributes[k].name)
  }

  predicate KeptTable(e: Entity) {
    forall k :: 0 <= k < |e.attributes| ==> KeptColumnWhole(e.attributes[k])
  }

  /** The lines the keys are drawn as: from the column pointed at to the holder. */
  function KeySpellings(references: seq<(string, string)>): (r: seq<string>)
    ensures |r| == |references| && forall i :: 0 <= i < |r| ==> r[i] == references[i].1 + " -> " + references[i].0
  {
    seq(|references|, i requires 0 <= i < |references| => references[i].1 + " -> " + references[i].0)
  }

  /** As many lines as foreign keys of each spelling, all 1:N and without words. */
  ghost predicate LinesMatch(s: Schema) {
    && SameCounts(Links(s), KeySpellings(References(s)))
    && forall i :: 0 <= i < |s.relationships| ==>
         s.relationships[i].cardinality.OneToMany? && Blank(s.relationships[i].description)
  }

  /** What a script gives back as it was. */
  ghost predicate Kept(s: Schema) {
    && (forall i :: 0 <= i < |s.entities| ==> NamesTrimmed(s.entities[i]) && KeptTable(s.entities[i]))
    && ConsistentHolders(References(s))
    && LinesMatch(s)
  }

  // ----- what is read -----

  /** The draft `d` is the schema `s`, under other ids. */
  ghost predicate ReadsBack(s: Schema, d: Schema, includePositions: bool) {
    && AllNamedAs(s.entities, d.entities)
    && EntitiesOf(d.entities, AllTables(s.entities))
    && UniqueIds(d.entities)
    && KeysSoFar(s, d.entities, |s.entities|, 0)
    && LinesDrawn(d.entities, d.relationships, KeyLinesUpTo(s, |s.entities|))
    && TextSoFar(s, d.entities, |s.entities|, 0, false)
    && (includePositions ==> SamePlaces(s.entities, d.entities))
  }

  predicate SamePlaces(a: seq<Entity>, b: seq<Entity>) {
    |a| == |b| && forall i :: 0 <= i < |a| ==> a[i].position == b[i].position
  }

  lemma {:induction false} NoOwnKeys(entities: seq<Entity>, n: nat)
    requires n <= |entities|
    ensures OwnKeys(AllTables(entities), n) == []
  {
    hide TableOf;
    if n > 0 {
      NoOwnKeys(entities, n - 1);
      TableHasNoKeys(entities[n - 1]);
      assert KeysOf(AllTables(entities)[n - 1]) == [];
    }
  }

  lemma TableHasNoKeys(e: Entity)
    ensures TableOf(e).foreignKeys == [] && TableOf(e).skipped == []
  {
  }

  lemma {:induction false} NoNotes(entities: seq<Entity>, n: nat)
    requires n <= |entities|
    ensures NotesOf(AllTables(entities), n) == 0
  {
    hide TableOf;
    if n > 0 {
      NoNotes(entities, n - 1);
      TableHasNoKeys(entities[n - 1]);
    }
  }

  lemma {:induction false} AddedUndescribed(i: Import, tables: seq<ParsedTable>, n: nat, uuid: nat -> string)
    requires i.entities == [] && n <= |tables|
    ensures Undescribed(AddedUpTo(i, tables, n, uuid).entities)
  {
    if n > 0 {
      AddedUndescribed(i, tables, n - 1, uuid);
    }
  }

  lemma StageStarts(s: Schema, added: Import, uuid: nat -> string)
    requires WellNamed(s.entities) && Fresh(added, uuid) && EntitiesOf(added.entities, AllTables(s.entities))
    requires Undescribed(added.entities) && added.report == []
    ensures Stage(s, added, 0, 0, [])
  {
    hide EntitiesOf, WellNamed, AllNamedAs, Undescribed, UniqueIds;
    NamedAsTables(s.entities, added.entities);
  }

  lemma StageIsText(s: Schema, i: Import, n: nat, k: nat, lines: seq<Line>)
    requires Stage(s, i, n, k, lines)
    ensures TextStage(s, i, 0, 0, false)
  {
    hide AllNamedAs, TextSoFar;
    UndescribedText(s, i.entities);
  }

  lemma TextStageParts(s: Schema, i: Import, n: nat, k: nat, begun: bool)
    requires TextStage(s, i, n, k, begun)
    ensures AllNamedAs(s.entities, i.entities) && TextSoFar(s, i.entities, n, k, begun) && i.report == []
  {
  }

  lemma KeysSoFarSame(s: Schema, a: seq<Entity>, b: seq<Entity>, n: nat, k: nat)
    requires KeysSoFar(s, a, n, k) && SameReferences(a, b)
    ensures KeysSoFar(s, b, n, k)
  {
    hide SameShape, WantedKey;
    forall p: nat, q: nat | p < |b| && p < |s.entities| && q < |b[p].attributes| && q < |s.entities[p].attributes|
      ensures b[p].attributes[q].foreignKey == if Before(p, q, n, k) then WantedKey(s, b, s.entities[p].attributes[q]) else None
    {
      SameAt(a, b, p, q);
      WantedKeySame(s, a, b, s.entities[p].attributes[q]);
    }
  }

  /** The draft before it is placed. */
  lemma AssembledBack(s: Schema, sorted: Sorted, uuid: nat -> string)
    requires Injective(uuid) && WellNamed(s.entities) && KeysResolve(s)
    requires forall p :: 0 <= p < |s.entities| ==> Commentable(s.entities[p])
    requires sorted == Sorted(AllTables(s.entities), Numbers(|s.entities|), LateKeysUpTo(s, |s.entities|), RemarksUpTo(s, |s.entities|), 0)
    ensures var built := Assembled(sorted, uuid); built.report == [] && ReadsBack(s, built.Draft(), false)
  {
    hide Injective, WellNamed, KeysResolve, Fresh, Sound, Stage, TextStage, EntitiesOf, SameShape, SameReferences, UniqueIds;
    hide LinkedUpTo, DescribedUpTo, AddedUpTo, NotesOf, LateKeysUpTo, RemarksUpTo, OwnKeys, KeyLinesUpTo, Undescribed, LostKeys, LostComments;
    hide AllNamedAs, KeysSoFar, LinesDrawn, TextSoFar;
    var n, tables := |s.entities|, AllTables(s.entities);
    var keys, comments := LateKeysUpTo(s, n), RemarksUpTo(s, n);
    NoOwnKeys(s.entities, n);
    assert AllKeys(sorted) == keys;
    var started := Import([], [], Notes(0), 0);
    StartedFresh(started, uuid);
    AddedAll(started, tables, n, uuid);
    NoNotes(s.entities, n);
    assert tables[..n] == tables;
    AddedUndescribed(started, tables, n, uuid);
    var added := AddedUpTo(started, tables, n, uuid);
    StageStarts(s, added, uuid);
    AllLinked(s, added, n, uuid);
    FreshSound(added, uuid);
    LinkedAll(added, keys, |keys|, uuid);
    var linked := LinkedUpTo(added, keys, |keys|, uuid);
    StageParts(s, linked, n, 0, KeyLinesUpTo(s, n));
    StageIsText(s, linked, n, 0, KeyLinesUpTo(s, n));
    AllRemarked(s, linked, n);
    DescribedAll(linked, comments, |comments|);
    var built := DescribedUpTo(linked, comments, |comments|);
    TextStageParts(s, built, n, 0, false);
    KeysSoFarSame(s, linked.entities, built.entities, n, 0);
    ReferencesAreShape(linked.entities, built.entities);
    LinesDrawnSame(linked.entities, built.entities, linked.relationships, KeyLinesUpTo(s, n));
    UniqueIdsSame(linked.entities, built.entities);
    SameShapeTransitive(added.entities, linked.entities, built.entities);
    EntitiesOfSame(added.entities, built.entities, tables);
  }

  /** Each table finds the hint above its own statement. */
  lemma HintFound(s: Schema, options: GenerateOptions, i: nat, name: string)
    requires options.includePositions && i < |s.entities| && name == Trim(s.entities[i].name)
    ensures HintFor(ScriptHints(s, options), Some(i), name) == Some(i)
  {
    hide Trim;
    var hints := ScriptHints(s, options);
    var p := (h: LayoutHint) => h.above == Some(i) && SameTable(h.table, name);
    assert hints[i] == HintOf(s.entities[i], i);
    assert p(hints[i]);
    FirstIs(hints, p, i);
  }

  lemma PlacedBack(s: Schema, d: Schema, options: GenerateOptions)
    requires WellNamed(s.entities) && ReadsBack(s, d, false)
    ensures var placed := Placed(d.entities, ScriptHints(s, options), Numbers(|s.entities|), options.includePositions);
            ReadsBack(s, d.(entities := placed), options.includePositions)
  {
    hide WellNamed, KeysSoFar, LinesDrawn, TextSoFar, UniqueIds, SameShape, SameReferences, EntitiesOf, PlaceOf, AllNamedAs;
    var n, hints, tableAt := |s.entities|, ScriptHints(s, options), Numbers(|s.entities|);
    var placed := Placed(d.entities, hints, tableAt, options.includePositions);
    PlacedKeys(d.entities, hints, tableAt, options.includePositions);
    ReferencesAreShape(d.entities, placed);
    NamedAsSame(s.entities, d.entities, placed);
    EntitiesOfSame(d.entities, placed, AllTables(s.entities));
    UniqueIdsSame(d.entities, placed);
    KeysSoFarSame(s, d.entities, placed, n, 0);
    LinesDrawnSame(d.entities, placed, d.relationships, KeyLinesUpTo(s, n));
    PlacedText(s, d.entities, placed, n);
    if options.includePositions {
      PlacesBack(s, d, options);
    }
  }

  lemma PlacedText(s: Schema, entities: seq<Entity>, placed: seq<Entity>, n: nat)
    requires TextSoFar(s, entities, n, 0, false) && |placed| == |entities|
    requires forall i :: 0 <= i < |placed| ==> placed[i] == entities[i].(position := placed[i].position)
    ensures TextSoFar(s, placed, n, 0, false)
  {
    hide Trim;
    forall p: nat | p < |placed| && p < |s.entities|
      ensures EntityText(s.entities[p], placed[p], p, n, 0, false)
    {
      assert EntityText(s.entities[p], entities[p], p, n, 0, false);
    }
  }

  lemma PlacesBack(s: Schema, d: Schema, options: GenerateOptions)
    requires options.includePositions && WellNamed(s.entities) && AllNamedAs(s.entities, d.entities)
    ensures SamePlaces(s.entities, Placed(d.entities, ScriptHints(s, options), Numbers(|s.entities|), true))
  {
    hide ColumnsWellNamed, Trim, HintFor;
    var hints, tableAt := ScriptHints(s, options), Numbers(|s.entities|);
    forall i | 0 <= i < |s.entities|
      ensures Placed(d.entities, hints, tableAt, true)[i].position == s.entities[i].position
    {
      assert NamedAs(s.entities[i], d.entities[i]) && ColumnsWellNamed(s.entities[i]);
      TableNameTrimmed(s.entities[i]);
      HintFound(s, options, i, d.entities[i].name);
      assert StatementOf(tableAt, i) == Some(i);
      assert hints[i] == HintOf(s.entities[i], i);
    }
  }
}
