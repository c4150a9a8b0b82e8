/** What the checks of a version 1 package look at, said of its raw records: which fields they read and as what. */
module PackageRecords {
  import opened Values
  import opened GraphModel
  import opened GraphRecords
  import opened PackageGraph

  /** The field lists records, each naming itself, no two alike. */
  ghost predicate TableIs(v: Json, rows: seq<Row>, show: Show) {
    && v.Arr? && |v.items| == |rows|
    && (forall i :: 0 <= i < |rows| ==>
          v.items[i] == Obj(rows[i].fields) && FieldNames(rows[i].fields, KId, rows[i].id, show))
    && forall i, j :: 0 <= i < j < |rows| ==> rows[i].id != rows[j].id
  }

  ghost predicate StepsAre(chapter: Fields, ids: seq<Id>, show: Show) {
    var k := KOther("step_ids");
    && k in chapter && chapter[k].Arr? && |chapter[k].items| == |ids|
    && forall i :: 0 <= i < |ids| ==> Names(chapter[k].items[i], ids[i], show)
  }

  /** Choices are listed as they are, without stripping; nothing stands for none. */
  predicate ChoicesAre(step: Fields, ids: seq<string>, show: Show) {
    var k := KOther("choice_ids");
    if k !in step || Nothing(step[k]) then ids == []
    else
      && step[k].Arr? && |step[k].items| == |ids|
      && forall i :: 0 <= i < |ids| ==>
           ids[i] == if step[k].items[i].Str? then step[k].items[i].s else show(step[k].items[i])
  }

  lemma RowIff(v: Json, row: Row, show: Show)
    ensures ReadRow(v, show) == Some(row) <==> v == Obj(row.fields) && FieldNames(row.fields, KId, row.id, show)
  {
    hide ReadId, FieldNames;
    if v.Obj? { FieldNamesIff(v.fields, KId, row.id, show); }
  }

  lemma DistinctRows(rows: seq<Row>)
    ensures Distinct(RowIds(rows)) <==> forall i, j :: 0 <= i < j < |rows| ==> rows[i].id != rows[j].id
  {
    var ids := RowIds(rows);
    if Distinct(ids) {
      forall i, j | 0 <= i < j < |rows| ensures rows[i].id != rows[j].id { assert ids[i] != ids[j]; }
    }
  }

  lemma TableIff(v: Json, rows: seq<Row>, show: Show)
    ensures ReadRows(v, show) == Some(rows) <==> TableIs(v, rows, show)
  {
    hide ReadRow, FieldNames, Distinct, RowIds;
    DistinctRows(rows);
    if v.Arr? {
      ReadAllIff(item => ReadRow(item, show), v.items, rows);
      forall i | 0 <= i < |rows| && i < |v.items|
        ensures ReadRow(v.items[i], show) == Some(rows[i])
          <==> v.items[i] == Obj(rows[i].fields) && FieldNames(rows[i].fields, KId, rows[i].id, show)
      {
        RowIff(v.items[i], rows[i], show);
      }
    }
  }

  lemma StepsIff(chapter: Fields, ids: seq<Id>, show: Show)
    ensures ListedSteps(chapter, show) == Some(ids) <==> StepsAre(chapter, ids, show)
  {
    hide ReadId, Names;
    var v := Get(chapter, KOther("step_ids"), Null);
    if v.Arr? {
      ReadAllIff(item => ReadId(item, show), v.items, ids);
      forall i | 0 <= i < |ids| && i < |v.items|
        ensures ReadId(v.items[i], show) == Some(ids[i]) <==> Names(v.items[i], ids[i], show)
      {
        NamesIff(v.items[i], ids[i], show);
      }
    }
  }

  lemma ChoicesIff(step: Fields, ids: seq<string>, show: Show)
    ensures ListedChoices(step, show) == Some(ids) <==> ChoicesAre(step, ids, show)
  {
    var v := Get(step, KOther("choice_ids"), Null);
    NothingIff(v);
    NullIsNothing();
    if Truthy(v) && v.Arr? && ChoicesAre(step, ids, show) {
      assert Map(item => Rendered(item, show), v.items) == ids;
    }
  }

  /** Every field that the checks look at is the one it should be: the tables and their identifiers, the steps of a
      chapter, the choices of a step, where a choice comes from and leads to, the chapter of a step and the start. */
  lemma PackagesAreRead(v: Json, rows: seq<Row>, f: Fields, ids: seq<Id>, text: string, show: Show)
    ensures ReadRows(v, show) == Some(rows) <==> TableIs(v, rows, show)
    ensures ListedSteps(f, show) == Some(ids) <==> StepsAre(f, ids, show)
    ensures ListedChoices(f, show) == Some(ids) <==> ChoicesAre(f, ids, show)
    ensures SourceOf(f, show) == text <==> FieldSays(f, KOther("step_id"), text, show)
    ensures NextOf(f, show) == text <==> FieldSays(f, KOther("next_step_id"), text, show)
    ensures StartOf(f, show) == text <==> FieldSays(f, KOther("start_step_id"), text, show)
    ensures TextAt(f, KChapterId, show) == text <==> FieldSays(f, KChapterId, text, show)
  {
    hide ReadRows, TableIs, ListedSteps, StepsAre, ListedChoices, ChoicesAre, Text, FieldSays;
    TableIff(v, rows, show);
    StepsIff(f, ids, show);
    ChoicesIff(f, ids, show);
    FieldSaysIff(f, KOther("step_id"), text, show);
    FieldSaysIff(f, KOther("next_step_id"), text, show);
    FieldSaysIff(f, KOther("start_step_id"), text, show);
    FieldSaysIff(f, KChapterId, text, show);
  }
}
