/** The subject and previous-year-question (PYQ) store of
    utils/database_helper.py. The two JSON documents it reads are passed in
    as values: a dictionary becomes a sequence of (key, value) pairs in the
    document's order, with no key twice. */
module DatabaseHelper {
  import opened Wrappers
  import opened Strings

  /** One curriculum module of a subject. `id` is kept as the text it is
      rendered to in prompts (the data holds numbers and strings alike). */
  datatype Module = Module(id: string, name: string, topics: seq<string>)

  /** The JSON object stored under one subject code. `title` and `modules`
      are None when the key is absent; `otherKeys` counts the object's other
      keys, which matter only to the emptiness test. */
  datatype SubjectEntry = SubjectEntry(title: Option<string>, modules: Option<seq<Module>>, otherKeys: nat)

  /** The record `get_subject_info` builds. */
  datatype SubjectInfo = SubjectInfo(code: string, name: string, modules: seq<Module>)

  /** One `{code, name}` item of the subject list and of search results. */
  datatype Summary = Summary(code: string, name: string)

  /** One year of papers for one exam type. */
  datatype YearPapers = YearPapers(year: string, questions: seq<string>)

  /** What `get_pyqs_for_subject` returns: the list for one exam type, or
      the whole exam-type dictionary of the subject. */
  datatype PyqResult = ExamPapers(papers: seq<YearPapers>) | AllPapers(byExam: seq<(string, seq<YearPapers>)>)

  /** A JSON dictionary, in document order. */
  type Dict<V> = seq<(string, V)>

  /** A Python dictionary never holds a key twice. */
  predicate UniqueKeys<V>(d: Dict<V>) {
    forall i, j :: 0 <= i < j < |d| ==> d[i].0 != d[j].0
  }

  /** The position of `key` in `d`, or -1. */
  function IndexOf<V>(d: Dict<V>, key: string): (r: int)
    ensures -1 <= r < |d|
    ensures r == -1 <==> forall i :: 0 <= i < |d| ==> d[i].0 != key
    ensures r >= 0 ==> d[r].0 == key && forall i :: 0 <= i < r ==> d[i].0 != key
  {
    if |d| == 0 then -1
    else if d[0].0 == key then 0
    else
      var k := IndexOf(d[1..], key);
      if k == -1 then -1 else k + 1
  }

  /** Python `d.get(key)`: the value stored under `key`, if any. */
  function Get<V>(d: Dict<V>, key: string): (r: Option<V>)
    requires UniqueKeys(d)
    ensures r.None? <==> forall i :: 0 <= i < |d| ==> d[i].0 != key
    ensures forall i :: 0 <= i < |d| && d[i].0 == key ==> r == Some(d[i].1)
  {
    var k := IndexOf(d, key);
    if k == -1 then None else Some(d[k].1)
  }

  /** Python's `not subject_data` for a dictionary: it has no key at all. */
  predicate IsEmpty(e: SubjectEntry) {
    e.title.None? && e.modules.None? && e.otherKeys == 0
  }

  /** `info.get('title', code)`. */
  function NameOf(code: string, e: SubjectEntry): string {
    if e.title.Some? then e.title.value else code
  }

  /** `get_subject_info`: no record for an absent code or an empty entry;
      otherwise the queried code, the title (or the code) and the modules
      (or none). */
  function GetSubjectInfo(subjects: Dict<SubjectEntry>, code: string): (r: Option<SubjectInfo>)
    requires UniqueKeys(subjects)
    ensures r.None? <==> forall i :: 0 <= i < |subjects| && subjects[i].0 == code ==> IsEmpty(subjects[i].1)
    ensures forall i :: 0 <= i < |subjects| && subjects[i].0 == code && !IsEmpty(subjects[i].1) ==>
              r == Some(SubjectInfo(code,
                                    if subjects[i].1.title.Some? then subjects[i].1.title.value else code,
                                    if subjects[i].1.modules.Some? then subjects[i].1.modules.value else []))
  {
    match Get(subjects, code)
    case None => None
    case Some(e) =>
      if IsEmpty(e) then None
      else Some(SubjectInfo(code, NameOf(code, e), if e.modules.Some? then e.modules.value else []))
  }

  /** `get_pyqs_for_subject`: with a non-empty exam type, that exam type's
      list (or an empty list); without one, the subject's whole dictionary
      (or an empty one). */
  function GetPyqsForSubject(pyqs: Dict<Dict<seq<YearPapers>>>, code: string, examType: Option<string>): (r: PyqResult)
    requires UniqueKeys(pyqs)
    requires forall i :: 0 <= i < |pyqs| ==> UniqueKeys(pyqs[i].1)
    ensures r.ExamPapers? <==> (examType.Some? && examType.value != "")
    ensures r.AllPapers? ==>
              (forall i :: 0 <= i < |pyqs| ==> pyqs[i].0 != code) ==> r.byExam == []
    ensures r.AllPapers? ==>
              forall i :: 0 <= i < |pyqs| && pyqs[i].0 == code ==> r.byExam == pyqs[i].1
    ensures r.ExamPapers? ==>
              forall i, j :: 0 <= i < |pyqs| && pyqs[i].0 == code && 0 <= j < |pyqs[i].1| && pyqs[i].1[j].0 == examType.value
                ==> r.papers == pyqs[i].1[j].1
    ensures r.ExamPapers? && r.papers != [] ==>
              exists i, j :: 0 <= i < |pyqs| && pyqs[i].0 == code && 0 <= j < |pyqs[i].1| && pyqs[i].1[j].0 == examType.value
  {
    var subjectPyqs := match Get(pyqs, code) case Some(d) => d case None => [];
    if examType.Some? && examType.value != "" then
      ExamPapers(match Get(subjectPyqs, examType.value) case Some(p) => p case None => [])
    else
      AllPapers(subjectPyqs)
  }

  /** Asking for one exam type yields the entry for that exam type in the
      subject's whole dictionary, or nothing when it has none. */
  lemma ExamTypeSelectsFromWhole(pyqs: Dict<Dict<seq<YearPapers>>>, code: string, examType: string)
    requires UniqueKeys(pyqs)
    requires forall i :: 0 <= i < |pyqs| ==> UniqueKeys(pyqs[i].1)
    requires examType != ""
    ensures var whole := GetPyqsForSubject(pyqs, code, None).byExam;
            UniqueKeys(whole) &&
            GetPyqsForSubject(pyqs, code, Some(examType)).papers
              == match Get(whole, examType) case Some(p) => p case None => []
  {
  }

  /** The list item for one store entry. */
  function SummaryOf(entry: (string, SubjectEntry)): Summary {
    Summary(entry.0, NameOf(entry.0, entry.1))
  }

  /** `get_all_subjects`: one `{code, name}` per entry, in store order. */
  function GetAllSubjects(subjects: Dict<SubjectEntry>): (r: seq<Summary>)
    ensures |r| == |subjects|
    ensures forall i :: 0 <= i < |subjects| ==>
              r[i].code == subjects[i].0 &&
              r[i].name == (if subjects[i].1.title.Some? then subjects[i].1.title.value else subjects[i].0)
  {
    seq(|subjects|, i requires 0 <= i < |subjects| => SummaryOf(subjects[i]))
  }

  /** The listing and the detailed lookup agree: every subject with a
      non-empty entry is found under its code with the listed name. */
  lemma ListingAgreesWithLookup(subjects: Dict<SubjectEntry>, i: nat)
    requires UniqueKeys(subjects)
    requires i < |subjects| && !IsEmpty(subjects[i].1)
    ensures var s := GetAllSubjects(subjects)[i];
            var info := GetSubjectInfo(subjects, s.code);
            info.Some? && info.value.code == s.code && info.value.name == s.name
  {
  }

  /** The match test of `search_subjects`, on an already lowercased query. */
  predicate Matches(s: Summary, lowered: string) {
    Contains(Lower(s.code), lowered) || Contains(Lower(s.name), lowered)
  }

  /** The items of `items` that match, in order. */
  function Matching(items: seq<Summary>, lowered: string): seq<Summary> {
    if |items| == 0 then []
    else if Matches(items[|items| - 1], lowered) then Matching(items[..|items| - 1], lowered) + [items[|items| - 1]]
    else Matching(items[..|items| - 1], lowered)
  }

  /** `search_subjects`: walks the store once, keeping the entries whose
      lowercased code or name contains the lowercased query. */
  method SearchSubjects(subjects: Dict<SubjectEntry>, query: string) returns (results: seq<Summary>)
    ensures results == Matching(GetAllSubjects(subjects), Lower(query))
  {
    var q := Lower(query);
    results := [];
    var i := 0;
    ghost var all := GetAllSubjects(subjects);
    while i < |subjects|
      invariant 0 <= i <= |subjects|
      invariant results == Matching(all[..i], q)
    {
      var code := subjects[i].0;
      var name := NameOf(code, subjects[i].1);
      assert all[..i + 1][..i] == all[..i];
      if Contains(Lower(code), q) || Contains(Lower(name), q) {
        results := results + [Summary(code, name)];
      }
      i := i + 1;
    }
    assert all[..i] == all;
  }

  /** Every search result matches the query. */
  lemma {:induction false} SearchSound(items: seq<Summary>, lowered: string, r: Summary)
    requires r in Matching(items, lowered)
    ensures Matches(r, lowered) && r in items
  {
    if |items| > 0 {
      var init := items[..|items| - 1];
      if r in Matching(init, lowered) {
        SearchSound(init, lowered, r);
      }
    }
  }

  /** Every matching item is a search result. */
  lemma {:induction false} SearchComplete(items: seq<Summary>, lowered: string, k: nat)
    requires k < |items| && Matches(items[k], lowered)
    ensures items[k] in Matching(items, lowered)
  {
    if k < |items| - 1 {
      SearchComplete(items[..|items| - 1], lowered, k);
    }
  }

  /** The positions in `items` of the items `Matching` keeps: strictly
      increasing, each item kept stands at its position, and every matching
      position is among them. */
  function MatchPositions(items: seq<Summary>, lowered: string): (p: seq<nat>)
    ensures forall k :: 0 <= k < |p| ==> p[k] < |items|
    ensures forall a, b :: 0 <= a < b < |p| ==> p[a] < p[b]
    ensures var r := Matching(items, lowered);
            |p| == |r| && forall k :: 0 <= k < |p| ==> r[k] == items[p[k]]
    ensures forall j :: 0 <= j < |items| && Matches(items[j], lowered) ==> j in p
  {
    if |items| == 0 then []
    else
      var init := items[..|items| - 1];
      var q := MatchPositions(init, lowered);
      assert forall j :: 0 <= j < |init| ==> init[j] == items[j];
      if Matches(items[|items| - 1], lowered) then q + [|items| - 1] else q
  }

  /** In a dictionary without repeated keys, each key is found where it is. */
  lemma PositionOfKey<V>(d: Dict<V>, i: nat)
    requires UniqueKeys(d) && i < |d|
    ensures IndexOf(d, d[i].0) == i
  {
  }

  /** Search results keep the store's order: a result's position in the
      store grows with its position in the result list. */
  lemma SearchKeepsOrder(subjects: Dict<SubjectEntry>, lowered: string)
    requires UniqueKeys(subjects)
    ensures var r := Matching(GetAllSubjects(subjects), lowered);
            forall a, b :: 0 <= a < b < |r| ==> IndexOf(subjects, r[a].code) < IndexOf(subjects, r[b].code)
  {
    var all := GetAllSubjects(subjects);
    var p := MatchPositions(all, lowered);
    forall k | 0 <= k < |p| ensures IndexOf(subjects, all[p[k]].code) == p[k] {
      PositionOfKey(subjects, p[k]);
    }
  }

  /** An empty query lists every subject, exactly as `get_all_subjects` does. */
  lemma {:induction false} EmptyQueryListsAll(items: seq<Summary>)
    ensures Matching(items, Lower("")) == items
  {
    if |items| > 0 {
      EmptyQueryListsAll(items[..|items| - 1]);
      assert Matches(items[|items| - 1], "");
      assert items[..|items| - 1] + [items[|items| - 1]] == items;
    }
  }
}
