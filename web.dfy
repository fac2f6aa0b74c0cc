/**
 * The web interface's own logic: the last entry of the scan log, the
 * filtered listing query, saving and showing one meme, image URLs and the
 * background-action dispatch. Flask, templates and process spawning are
 * outside the model; request data arrives as maps and decoded JSON.
 */
module Web {
  import opened Optional
  import opened Text
  import opened PathLib
  import opened Json
  import opened Catalog
  import opened Pipeline

  /** `request.args.get(key, default)` and `request.form.get(key, default)`. */
  function ArgOr(args: map<string, string>, key: string, default: string): (r: string)
    ensures key in args ==> r == args[key]
    ensures key !in args ==> r == default
  {
    if key in args then args[key] else default
  }

  // ----------------------------------------------------------------------
  // The settings page: the last scan-log entry

  /** The line the scan script writes around each run's header: 32 equals signs. */
  const LogSeparator := "================================"

  /** The log file as the settings page finds it. */
  datatype LogFile = Missing | Unreadable(error: string) | Readable(content: string)

  /**
   * The last complete entry of a log whose entries `sep` delimits: the final
   * two parts with a separator in front of each, or everything when there
   * are fewer than three parts.
   */
  function TailEntry(content: string, sep: string): (r: string)
    requires |sep| > 0
    ensures |Split(content, sep)| < 3 ==> r == content
    ensures |Split(content, sep)| >= 3 ==> StartsWith(r, sep)
    ensures var parts := Split(content, sep);
      |parts| >= 3 ==> r == sep + parts[|parts| - 2] + sep + parts[|parts| - 1]
  {
    var parts := Split(content, sep);
    if |parts| >= 3 then
      var rest := parts[|parts| - 2] + sep + parts[|parts| - 1];
      ConcatEnds(sep, rest);
      sep + rest
    else content
  }

  /** The entry shown is always the end of the log. */
  lemma TailEntryIsSuffix(content: string, sep: string)
    requires |sep| > 0
    ensures EndsWith(content, TailEntry(content, sep))
  {
    var parts := Split(content, sep);
    if |parts| >= 3 {
      JoinSplit(content, sep);
      JoinLastTwo(parts, sep);
      ConcatEnds(Join(parts[..|parts| - 2], sep), TailEntry(content, sep));
    }
  }

  /** The two parts the entry is made of contain no separator of their own. */
  lemma TailEntryParts(content: string, sep: string)
    requires |sep| > 0 && |Split(content, sep)| >= 3
    ensures var parts := Split(content, sep);
      && !Contains(parts[|parts| - 2], sep)
      && !Contains(parts[|parts| - 1], sep)
  {
    SplitPartsFree(content, sep);
  }

  /** `settings`: the text the page shows for the log. */
  function LogView(log: LogFile): (r: string)
    ensures log.Missing? ==> r == "No log file found"
    ensures log.Unreadable? ==> StartsWith(r, "Error reading log: ")
    ensures log.Readable? ==> r == TailEntry(log.content, LogSeparator) && EndsWith(log.content, r)
  {
    match log
    case Missing => "No log file found"
    case Unreadable(e) => ErrorMessage("Error reading log: ", e)
    case Readable(content) => TailEntryIsSuffix(content, LogSeparator); TailEntry(content, LogSeparator)
  }

  // ----------------------------------------------------------------------
  // The listing query

  /** Counts the `?` placeholders of a statement. */
  function Marks(s: string): nat
  {
    multiset(s)['?']
  }

  lemma MarksConcat(a: string, b: string)
    ensures Marks(a + b) == Marks(a) + Marks(b)
  {
    assert multiset(a + b) == multiset(a) + multiset(b);
  }

  /**
   * A statement as it is assembled: runs of literal SQL text and `?`
   * placeholders, in order.
   */
  datatype Fragment = Raw(text: string) | Param

  /** The statement's text. */
  function Render(q: seq<Fragment>): string
  {
    if q == [] then "" else Render(q[..|q| - 1]) + Piece(q[|q| - 1])
  }

  /** The text of one fragment: its literal run, or `?` for a placeholder. */
  function Piece(f: Fragment): string
  {
    match f
    case Raw(t) => t
    case Param => "?"
  }

  /** The number of placeholders among the fragments. */
  function Params(q: seq<Fragment>): nat
  {
    multiset(q)[Param]
  }

  /** No literal run contains a question mark of its own. */
  predicate Unmarked(q: seq<Fragment>)
  {
    forall k :: 0 <= k < |q| && q[k].Raw? ==> '?' !in q[k].text
  }

  lemma ParamsConcat(a: seq<Fragment>, b: seq<Fragment>)
    ensures Params(a + b) == Params(a) + Params(b)
  {
    assert multiset(a + b) == multiset(a) + multiset(b);
  }

  lemma {:induction false} RenderConcat(a: seq<Fragment>, b: seq<Fragment>)
    ensures Render(a + b) == Render(a) + Render(b)
    decreases |b|
  {
    if b == [] {
      assert a + b == a;
    } else {
      var init, last := b[..|b| - 1], b[|b| - 1];
      assert (a + b)[..|a + b| - 1] == a + init;
      assert (a + b)[|a + b| - 1] == last;
      RenderConcat(a, init);
      calc {
        Render(a + b);
        Render(a + init) + Piece(last);
        (Render(a) + Render(init)) + Piece(last);
        Render(a) + (Render(init) + Piece(last));
        Render(a) + Render(b);
      }
    }
  }

  /** The text has exactly one `?` per placeholder fragment. */
  lemma {:induction false} RenderMarks(q: seq<Fragment>)
    requires Unmarked(q)
    ensures Marks(Render(q)) == Params(q)
  {
    if q != [] {
      var init, last := q[..|q| - 1], q[|q| - 1];
      assert q == init + [last];
      assert Unmarked(init) by {
        forall k | 0 <= k < |init| && init[k].Raw?
          ensures '?' !in init[k].text
        {
          assert init[k] == q[k];
        }
      }
      RenderMarks(init);
      ParamsConcat(init, [last]);
      MarksConcat(Render(init), Piece(last));
      PieceMarks(last);
    }
  }

  /** A fragment contributes one `?` when it is a placeholder and none when it is an unmarked run. */
  lemma PieceMarks(f: Fragment)
    requires f.Raw? ==> '?' !in f.text
    ensures Marks(Piece(f)) == Params([f])
  {
    if f.Raw? {
      assert multiset(f.text)['?'] == 0;
    }
  }

  /** `sql = """ SELECT ... WHERE 1=1 """`. */
  const SelectSql: seq<Fragment> := [
    Raw("\n        SELECT id, file_path, "), Raw("status, ref_content, template, \n"),
    Raw("               caption, "), Raw("description, meaning, created_at\n"),
    Raw("        FROM memes\n"), Raw("        WHERE 1=1\n    ")]

  /** `" AND status = ?"`. */
  const StatusClause: seq<Fragment> := [Raw(" AND status = "), Param]

  /** The search clause: each text column matched with `LIKE ?`, joined by `OR`. */
  const SearchClause: seq<Fragment> := [
    Raw(" AND (\n            file_path LIKE "), Param,
    Raw(" OR\n            ref_content LIKE "), Param,
    Raw(" OR\n            template LIKE "), Param,
    Raw(" OR\n            caption LIKE "), Param,
    Raw(" OR\n            description LIKE "), Param,
    Raw(" OR\n            meaning LIKE "), Param,
    Raw("\n        )")]

  /** `" ORDER BY created_at DESC"`. */
  const OrderClause: seq<Fragment> := [Raw(" ORDER BY created_at DESC")]

  lemma UnmarkedConcat(a: seq<Fragment>, b: seq<Fragment>)
    requires Unmarked(a) && Unmarked(b)
    ensures Unmarked(a + b)
  {
    forall k | 0 <= k < |a + b| && (a + b)[k].Raw?
      ensures '?' !in (a + b)[k].text
    {
      if k >= |a| {
        assert (a + b)[k] == b[k - |a|];
      }
    }
  }

  // One lemma per literal run, so that the solver checks the runs one at a time:
  // stating them together in the clause lemmas below exceeds the resource budget.
  lemma SelectRunFree0() ensures '?' !in "\n        SELECT id, file_path, " { }
  lemma SelectRunFree1() ensures '?' !in "status, ref_content, template, \n" { }
  lemma SelectRunFree2() ensures '?' !in "               caption, " { }
  lemma SelectRunFree3() ensures '?' !in "description, meaning, created_at\n" { }
  lemma SelectRunFree4() ensures '?' !in "        FROM memes\n" { }
  lemma SelectRunFree5() ensures '?' !in "        WHERE 1=1\n    " { }
  lemma SearchRunFree0() ensures '?' !in " AND (\n            file_path LIKE " { }
  lemma SearchRunFree1() ensures '?' !in " OR\n            ref_content LIKE " { }
  lemma SearchRunFree2() ensures '?' !in " OR\n            template LIKE " { }
  lemma SearchRunFree3() ensures '?' !in " OR\n            caption LIKE " { }
  lemma SearchRunFree4() ensures '?' !in " OR\n            description LIKE " { }
  lemma SearchRunFree5() ensures '?' !in " OR\n            meaning LIKE " { }
  lemma SearchRunFree6() ensures '?' !in "\n        )" { }
  lemma StatusRunFree() ensures '?' !in " AND status = " { }
  lemma OrderRunFree() ensures '?' !in " ORDER BY created_at DESC" { }

  lemma SelectUnmarked()
    ensures Unmarked(SelectSql)
  {
    forall k | 0 <= k < |SelectSql|
      ensures '?' !in SelectSql[k].text
    {
      if k == 0 { SelectRunFree0(); }
      else if k == 1 { SelectRunFree1(); }
      else if k == 2 { SelectRunFree2(); }
      else if k == 3 { SelectRunFree3(); }
      else if k == 4 { SelectRunFree4(); }
      else { SelectRunFree5(); }
    }
  }

  lemma ShortClausesUnmarked()
    ensures Unmarked(StatusClause) && Unmarked(OrderClause)
  {
    StatusRunFree();
    OrderRunFree();
  }

  lemma SearchUnmarked()
    ensures Unmarked(SearchClause)
  {
    forall k | 0 <= k < |SearchClause| && SearchClause[k].Raw?
      ensures '?' !in SearchClause[k].text
    {
      if k == 0 { SearchRunFree0(); }
      else if k == 2 { SearchRunFree1(); }
      else if k == 4 { SearchRunFree2(); }
      else if k == 6 { SearchRunFree3(); }
      else if k == 8 { SearchRunFree4(); }
      else if k == 10 { SearchRunFree5(); }
      else { SearchRunFree6(); }
    }
  }

  /** The placeholders of each clause: none, one, six and none. */
  lemma SelectParams()
    ensures Params(SelectSql) == 0
  {
  }

  lemma ShortClauseParams()
    ensures Params(StatusClause) == 1 && Params(OrderClause) == 0
  {
  }

  lemma SearchClauseParams()
    ensures Params(SearchClause) == 6
  {
  }

  /** The clauses `index` may append, in the order it appends them. */
  datatype Clause = Select | StatusFilter | SearchFilter | NewestFirst

  /** Each clause's text. */
  function ClauseSql(c: Clause): seq<Fragment>
  {
    match c
    case Select => SelectSql
    case StatusFilter => StatusClause
    case SearchFilter => SearchClause
    case NewestFirst => OrderClause
  }

  /** The placeholders each clause brings: one for the status, one per searched column. */
  function ClauseArity(c: Clause): nat
  {
    match c
    case Select => 0
    case StatusFilter => 1
    case SearchFilter => 6
    case NewestFirst => 0
  }

  lemma ClauseCounts(c: Clause)
    ensures Unmarked(ClauseSql(c)) && Params(ClauseSql(c)) == ClauseArity(c)
  {
    match c
    case Select => SelectUnmarked(); SelectParams();
    case StatusFilter => ShortClausesUnmarked(); ShortClauseParams();
    case SearchFilter => SearchUnmarked(); SearchClauseParams();
    case NewestFirst => ShortClausesUnmarked(); ShortClauseParams();
  }

  /** The statement the clauses make: their texts one after another. */
  function Statement(cs: seq<Clause>): seq<Fragment>
  {
    if cs == [] then [] else Statement(cs[..|cs| - 1]) + ClauseSql(cs[|cs| - 1])
  }

  function Arity(cs: seq<Clause>): nat
  {
    if cs == [] then 0 else Arity(cs[..|cs| - 1]) + ClauseArity(cs[|cs| - 1])
  }

  /** A statement's placeholders are its clauses' placeholders, and its text carries one `?` for each. */
  lemma {:induction false} StatementCounts(cs: seq<Clause>)
    ensures Unmarked(Statement(cs))
    ensures Params(Statement(cs)) == Arity(cs)
    ensures Marks(Render(Statement(cs))) == Arity(cs)
  {
    if cs == [] {
      assert Render([]) == "";
    } else {
      var init := cs[..|cs| - 1];
      var last := cs[|cs| - 1];
      StatementCounts(init);
      ClauseCounts(last);
      UnmarkedConcat(Statement(init), ClauseSql(last));
      ParamsConcat(Statement(init), ClauseSql(last));
    }
    RenderMarks(Statement(cs));
  }

  /** The `LIKE` pattern for a search: the stripped query anywhere in the column. */
  function SearchPattern(query: string): string
  {
    "%" + query + "%"
  }

  /** The clauses of the listing statement: the status clause and the search clause each present or not. */
  function IndexClauses(byStatus: bool, bySearch: bool): seq<Clause>
  {
    var withStatus := if byStatus then [Select] + [StatusFilter] else [Select];
    var withSearch := if bySearch then withStatus + [SearchFilter] else withStatus;
    withSearch + [NewestFirst]
  }

  /** `[search_pattern] * 6`: the pattern once for each searched column. */
  function SearchParams(pattern: string): seq<string>
  {
    [pattern, pattern, pattern, pattern, pattern, pattern]
  }

  /** The parameters that go with the listing statement: the status, then six search patterns. */
  function IndexParams(statusFilter: string, query: string): seq<string>
  {
    var withStatus := if statusFilter != "" then [] + [statusFilter] else [];
    if query != "" then withStatus + SearchParams(SearchPattern(query)) else withStatus
  }

  /** The status comes first when given; every other parameter is the search pattern. */
  lemma IndexParamsContents(statusFilter: string, query: string)
    ensures var params := IndexParams(statusFilter, query);
      var first := if statusFilter != "" then 1 else 0;
      && |params| == first + (if query != "" then 6 else 0)
      && (statusFilter != "" ==> params[0] == statusFilter)
      && forall k :: first <= k < |params| ==> params[k] == SearchPattern(query)
  {
  }

  /** Appending a clause adds its placeholders. */
  lemma ArityAppend(cs: seq<Clause>, c: Clause)
    ensures Arity(cs + [c]) == Arity(cs) + ClauseArity(c)
  {
    assert (cs + [c])[..|cs|] == cs;
  }

  /** One placeholder for the status clause and six for the search clause, when present. */
  lemma IndexArity(byStatus: bool, bySearch: bool)
    ensures Arity(IndexClauses(byStatus, bySearch)) == (if byStatus then 1 else 0) + (if bySearch then 6 else 0)
  {
    ArityAppend([], Select);
    assert [] + [Select] == [Select];
    ArityAppend([Select], StatusFilter);
    var withStatus := if byStatus then [Select] + [StatusFilter] else [Select];
    ArityAppend(withStatus, SearchFilter);
    var withSearch := if bySearch then withStatus + [SearchFilter] else withStatus;
    ArityAppend(withSearch, NewestFirst);
  }

  /**
   * Placeholders match parameters: whatever the filters, the statement's
   * text has exactly one `?` per parameter, one for the status and six for
   * the search.
   */
  lemma PlaceholdersMatchParams(statusFilter: string, query: string)
    ensures Marks(Render(Statement(IndexClauses(statusFilter != "", query != "")))) == |IndexParams(statusFilter, query)|
  {
    StatementCounts(IndexClauses(statusFilter != "", query != ""));
    IndexArity(statusFilter != "", query != "");
  }

  /**
   * `index`'s query: the status clause and its parameter exactly when a
   * status is given, the six-column search clause and six copies of the
   * pattern exactly when the stripped search is non-empty, newest first.
   * The statement's text is `Render(Statement(clauses))`.
   */
  method BuildIndexQuery(args: map<string, string>) returns (clauses: seq<Clause>, params: seq<string>)
    ensures clauses == IndexClauses(ArgOr(args, "status", "") != "", Strip(ArgOr(args, "search", "")) != "")
    ensures params == IndexParams(ArgOr(args, "status", ""), Strip(ArgOr(args, "search", "")))
  {
    var searchQuery := Strip(ArgOr(args, "search", ""));
    var statusFilter := ArgOr(args, "status", "");
    clauses, params := FilterQuery(statusFilter, searchQuery);
  }

  /** The statement and parameters for a given status filter and stripped search text. */
  method FilterQuery(statusFilter: string, searchQuery: string) returns (clauses: seq<Clause>, params: seq<string>)
    ensures clauses == IndexClauses(statusFilter != "", searchQuery != "")
    ensures params == IndexParams(statusFilter, searchQuery)
  {
    clauses := [Select];
    params := [];
    if statusFilter != "" {
      clauses := clauses + [StatusFilter];
      params := params + [statusFilter];
    }
    if searchQuery != "" {
      clauses := clauses + [SearchFilter];
      params := params + SearchParams(SearchPattern(searchQuery));
    }
    clauses := clauses + [NewestFirst];
  }

  // ----------------------------------------------------------------------
  // One meme's page

  /** The image location the pages link to. */
  const MemesUrlBase := "https://memes.tmn.name/files/"

  /** `MEMES_URL_BASE + Path(file_path).name`. */
  function ImageUrl(filePath: string): (url: string)
    ensures StartsWith(url, MemesUrlBase)
  {
    ConcatEnds(MemesUrlBase, Name(filePath));
    MemesUrlBase + Name(filePath)
  }

  /** Only the file's own name follows the base, whatever directory it sits in. */
  lemma ImageUrlOfChild(dir: string, n: string)
    requires n != "" && n != "." && forall j :: 0 <= j < |n| ==> n[j] != '/'
    ensures ImageUrl(dir + "/" + n) == MemesUrlBase + n
  {
    NameOfChild(dir, n);
  }

  /** The pages show the very image the processing script sent for analysis. */
  lemma ImageUrlIsAnalysisUrl(filePath: string)
    ensures ImageUrl(filePath) == AnalysisUrl(filePath)
  {
  }

  /** The columns a saved form writes. */
  datatype FormUpdate = FormUpdate(status: string, refContent: Value, template: Value, caption: Value,
                                   description: Value, meaning: Value)

  /** `field.strip()` followed by `or None`. */
  function FormText(form: map<string, string>, key: string): (v: Value)
    ensures v == Null <==> Strip(ArgOr(form, key, "")) == ""
    ensures v != Null ==> v == Str(Strip(ArgOr(form, key, ""))) && IsTrimmed(v.s) && v.s != ""
  {
    var text := Strip(ArgOr(form, key, ""));
    if text == "" then Null else Str(text)
  }

  /** The POST branch of `meme_detail`: the status as sent (default `new`), the text fields normalised. */
  function NormalizeForm(form: map<string, string>): (u: FormUpdate)
    ensures u.status == ArgOr(form, "status", "new")
    ensures "status" !in form ==> u.status == "new"
    ensures u.refContent == FormText(form, "ref_content") && u.template == FormText(form, "template")
    ensures u.caption == FormText(form, "caption") && u.description == FormText(form, "description")
    ensures u.meaning == FormText(form, "meaning")
  {
    FormUpdate(ArgOr(form, "status", "new"), FormText(form, "ref_content"), FormText(form, "template"),
      FormText(form, "caption"), FormText(form, "description"), FormText(form, "meaning"))
  }

  /** A field left blank, or holding only whitespace, clears its column. */
  lemma BlankFieldClears(form: map<string, string>, key: string)
    requires key in form && forall i :: 0 <= i < |form[key]| ==> IsSpace(form[key][i])
    ensures FormText(form, key) == Null
  {
  }

  /** The row after a saved form: the status and the five columns change; path and error message stay. */
  function RowEdited(row: Row, u: FormUpdate): (r: Row)
    ensures r.filePath == row.filePath && r.errorMessage == row.errorMessage
    ensures r.status == u.status
    ensures r.refContent == u.refContent && r.template == u.template && r.caption == u.caption
    ensures r.description == u.description && r.meaning == u.meaning
  {
    row.(status := u.status, refContent := u.refContent, template := u.template, caption := u.caption,
         description := u.description, meaning := u.meaning)
  }

  /** `value or ''`: the falsy values None, the empty text and zero show as empty text. */
  function Display(v: Value): (r: Value)
    ensures r == Str("") <==> v == Null || v == Str("") || v == Int(0)
    ensures r != Str("") ==> r == v
  {
    if v == Null || v == Str("") || v == Int(0) then Str("") else v
  }

  /** What the detail template receives. */
  datatype MemeView = MemeView(
    id: nat,
    imageUrl: string,
    fileName: string,
    status: string,
    refContent: Value,
    template: Value,
    caption: Value,
    description: Value,
    meaning: Value)

  /** The detail page: 404 when the id is unknown, otherwise the view and whether a form was saved. */
  datatype DetailPage = NotFound | Detail(meme: MemeView, saved: bool)

  /** The row as the detail template shows it: each text column through `value or ''`. */
  function ViewOf(id: nat, row: Row): (v: MemeView)
    ensures v.id == id && v.status == row.status
    ensures v.fileName == Name(row.filePath) && v.imageUrl == ImageUrl(row.filePath)
    ensures v.refContent == Display(row.refContent) && v.template == Display(row.template)
    ensures v.caption == Display(row.caption) && v.description == Display(row.description)
    ensures v.meaning == Display(row.meaning)
  {
    MemeView(id, ImageUrl(row.filePath), Name(row.filePath), row.status, Display(row.refContent),
      Display(row.template), Display(row.caption), Display(row.description), Display(row.meaning))
  }

  /** The UPDATE of `meme_detail`: the row with that id, if there is one, takes the saved form. */
  method SaveForm(db: MemeTable, memeId: nat, u: FormUpdate)
    requires db.Valid()
    modifies db
    ensures db.Valid() && db.nextId == old(db.nextId)
    ensures memeId in old(db.rows) ==> db.rows == old(db.rows)[memeId := RowEdited(old(db.rows)[memeId], u)]
    ensures memeId !in old(db.rows) ==> db.rows == old(db.rows)
  {
    if memeId in db.rows {
      var edited := RowEdited(db.rows[memeId], u);
      ReplaceKeepsUnique(db.rows, memeId, edited);
      db.rows := db.rows[memeId := edited];
    }
  }

  /** The SELECT of `meme_detail`: 404 for an unknown id, otherwise the row's view. */
  function ShowMeme(rows: map<nat, Row>, memeId: nat, saved: bool): (page: DetailPage)
    ensures page.NotFound? <==> memeId !in rows
    ensures page.Detail? ==> page.meme == ViewOf(memeId, rows[memeId]) && page.saved == saved
  {
    if memeId !in rows then NotFound else Detail(ViewOf(memeId, rows[memeId]), saved)
  }

  /**
   * `meme_detail`: on POST (`form` present) write the normalised form into
   * the row, if it exists; then show the row, or report it missing.
   */
  method MemeDetail(db: MemeTable, memeId: nat, form: Option<map<string, string>>) returns (page: DetailPage)
    requires db.Valid()
    modifies db
    ensures db.Valid() && db.nextId == old(db.nextId)
    ensures form.Some? && memeId in old(db.rows) ==>
      db.rows == old(db.rows)[memeId := RowEdited(old(db.rows)[memeId], NormalizeForm(form.value))]
    ensures form.None? || memeId !in old(db.rows) ==> db.rows == old(db.rows)
    ensures page == ShowMeme(db.rows, memeId, form.Some?)
  {
    if form.Some? {
      SaveForm(db, memeId, NormalizeForm(form.value));
    }
    page := ShowMeme(db.rows, memeId, form.Some?);
  }

  /** A column shown after a save: a cleared field as empty text, a filled one as saved. */
  predicate ShowsSaved(shown: Value, saved: Value)
  {
    (saved == Null ==> shown == Str("")) && (saved != Null ==> shown == saved)
  }

  /** A save followed by a reload shows the status sent and every field as the save wrote it. */
  lemma SavedFormShown(row: Row, form: map<string, string>, id: nat)
    ensures var shown := ViewOf(id, RowEdited(row, NormalizeForm(form)));
      && shown.status == ArgOr(form, "status", "new")
      && ShowsSaved(shown.refContent, FormText(form, "ref_content"))
      && ShowsSaved(shown.template, FormText(form, "template"))
      && ShowsSaved(shown.caption, FormText(form, "caption"))
      && ShowsSaved(shown.description, FormText(form, "description"))
      && ShowsSaved(shown.meaning, FormText(form, "meaning"))
  {
    var u := NormalizeForm(form);
    var shown := ViewOf(id, RowEdited(row, u));
    SavedFieldShown(shown.refContent, u.refContent);
    SavedFieldShown(shown.template, u.template);
    SavedFieldShown(shown.caption, u.caption);
    SavedFieldShown(shown.description, u.description);
    SavedFieldShown(shown.meaning, u.meaning);
  }

  /** A normalised field is NULL or text, and `value or ''` shows it as saved. */
  lemma SavedFieldShown(shown: Value, saved: Value)
    requires !saved.Int? && shown == Display(saved)
    ensures ShowsSaved(shown, saved)
  {
  }

  // ----------------------------------------------------------------------
  // Background actions

  /** The background job an action starts. */
  datatype Job = NoJob | RunScan | RetryErrors

  /** The JSON reply of `trigger_action`, with the job it launched, or a server error. */
  datatype ActionReply = Reply(success: bool, message: string, job: Job) | ServerError(message: string)

  /** The action a request body names, or `NoJob` for any other. */
  function RequestedJob(fields: map<string, Json>): Job
  {
    var action := Get(fields, "action");
    if action == JString("scan") then RunScan
    else if action == JString("retry_errors") then RetryErrors
    else NoJob
  }

  /**
   * `trigger_action`: `scan` and `retry_errors` start their job; anything else
   * is refused. `spawn` is `subprocess.Popen`: the error it raises for a job,
   * such as a missing script, or `None` when the job starts.
   */
  function TriggerAction(body: Json, spawn: Job -> Option<string>): (r: ActionReply)
    ensures !body.JObject? ==> r.ServerError?
    ensures body.JObject? && RequestedJob(body.fields) == NoJob ==> r == Reply(false, "Invalid action", NoJob)
    ensures body.JObject? && RequestedJob(body.fields) != NoJob ==>
      var job := RequestedJob(body.fields);
      && (spawn(job).Some? ==> r == ServerError(spawn(job).value))
      && (spawn(job).None? ==> r.Reply? && r.success && r.job == job)
    ensures r.Reply? ==> (r.success <==> r.job != NoJob)
  {
    match body
    case JObject(fields) =>
      var job := RequestedJob(fields);
      if job == NoJob then Reply(false, "Invalid action", NoJob)
      else if spawn(job).Some? then ServerError(spawn(job).value)
      else if job == RunScan then Reply(true, "Scan started in background!", RunScan)
      else Reply(true, "Error reprocessing started in background!", RetryErrors)
    case _ => ServerError("'" + TypeName(body) + "' object has no attribute 'get'")
  }

  /** Exactly the two known actions succeed, each with its own job, when the job can be started. */
  lemma TriggerDispatch(fields: map<string, Json>, spawn: Job -> Option<string>)
    ensures var r := TriggerAction(JObject(fields), spawn);
      && (r.Reply? && r.success <==>
           || (Get(fields, "action") == JString("scan") && spawn(RunScan).None?)
           || (Get(fields, "action") == JString("retry_errors") && spawn(RetryErrors).None?))
      && (Get(fields, "action") == JString("scan") && spawn(RunScan).None? ==> r.job == RunScan)
      && (Get(fields, "action") == JString("retry_errors") && spawn(RetryErrors).None? ==> r.job == RetryErrors)
      && (Get(fields, "action") !in {JString("scan"), JString("retry_errors")} ==> r.Reply? && !r.success)
  {
  }
}
