/**
 * The meme processing script: scanning the memes directory into the table,
 * turning one AI answer into a row update, and processing the pending rows
 * in a batch. The AI call and `json.loads` are inputs; the memes directory is
 * the list of paths `rglob('*')` yields.
 */
module Pipeline {
  import opened Optional
  import opened Text
  import opened PathLib
  import opened Json
  import opened Catalog

  // ----------------------------------------------------------------------
  // Directory scan

  /** The extensions, lower-cased, that make a file an image to catalogue. */
  const ImageExtensions: set<string> := {".jpg", ".jpeg", ".png", ".gif", ".webp", ".bmp"}

  /** One path yielded by `rglob('*')`: whether it is a regular file, and what it resolves to. */
  datatype Entry = Entry(path: string, isFile: bool, resolved: string)

  /** `f.is_file() and f.suffix.lower() in image_extensions`. */
  predicate IsImageFile(e: Entry)
  {
    e.isFile && Lower(Suffix(Name(e.path))) in ImageExtensions
  }

  /** The resolved paths of the entries `keep` accepts, in the order the walk yields them. */
  function ResolvedWhere(entries: seq<Entry>, keep: Entry -> bool): (r: seq<string>)
    ensures |r| <= |entries|
  {
    if entries == [] then []
    else
      var last := entries[|entries| - 1];
      ResolvedWhere(entries[..|entries| - 1], keep) + (if keep(last) then [last.resolved] else [])
  }

  /** The list comprehension collecting `image_files`. */
  function Candidates(entries: seq<Entry>): seq<string>
  {
    ResolvedWhere(entries, IsImageFile)
  }

  /** A path is collected exactly when some accepted entry resolves to it. */
  lemma {:induction false} ResolvedWhereMembers(entries: seq<Entry>, keep: Entry -> bool, p: string)
    ensures p in ResolvedWhere(entries, keep) <==>
      exists i :: 0 <= i < |entries| && keep(entries[i]) && entries[i].resolved == p
  {
    if entries != [] {
      var n := |entries| - 1;
      var init := entries[..n];
      ResolvedWhereMembers(init, keep, p);
      if p in ResolvedWhere(entries, keep) {
        if p in ResolvedWhere(init, keep) {
          var i :| 0 <= i < |init| && keep(init[i]) && init[i].resolved == p;
          assert entries[i] == init[i];
        } else {
          assert keep(entries[n]) && entries[n].resolved == p;
        }
      } else {
        forall i | 0 <= i < |entries| && keep(entries[i]) ensures entries[i].resolved != p {
          if i < n {
            assert init[i] == entries[i];
          }
        }
      }
    }
  }

  /** Only image files are scanned: a path is a candidate exactly when an image file resolves to it. */
  lemma CandidatesMembers(entries: seq<Entry>, p: string)
    ensures p in Candidates(entries) <==>
      exists i :: 0 <= i < |entries| && IsImageFile(entries[i]) && entries[i].resolved == p
  {
    ResolvedWhereMembers(entries, IsImageFile, p);
  }

  /**
   * The paths the scan inserts, in insertion order: each candidate that is
   * neither stored already nor inserted earlier in the same scan.
   */
  function NewPaths(existing: set<string>, candidates: seq<string>): (r: seq<string>)
  {
    if candidates == [] then []
    else
      var earlier := NewPaths(existing, candidates[..|candidates| - 1]);
      var p := candidates[|candidates| - 1];
      if p in existing || p in earlier then earlier else earlier + [p]
  }

  /** A path is inserted exactly when it is a candidate that was not stored before. */
  lemma {:induction false} NewPathsMembers(existing: set<string>, candidates: seq<string>)
    ensures forall p :: p in NewPaths(existing, candidates) <==> p in candidates && p !in existing
  {
    if candidates != [] {
      var init := candidates[..|candidates| - 1];
      NewPathsMembers(existing, init);
      assert candidates == init + [candidates[|candidates| - 1]];
    }
  }

  /** No path is inserted twice. */
  lemma {:induction false} NewPathsDistinct(existing: set<string>, candidates: seq<string>)
    ensures Distinct(NewPaths(existing, candidates))
  {
    if candidates != [] {
      NewPathsDistinct(existing, candidates[..|candidates| - 1]);
    }
  }

  /** The number of insertions is the number of distinct candidate paths not stored before. */
  lemma NewPathsCount(existing: set<string>, candidates: seq<string>)
    ensures |NewPaths(existing, candidates)| == |Elems(candidates) - existing|
  {
    var added := NewPaths(existing, candidates);
    NewPathsMembers(existing, candidates);
    NewPathsDistinct(existing, candidates);
    DistinctCard(added);
    assert Elems(added) == Elems(candidates) - existing;
  }

  /** Scanning again with the inserted paths stored inserts nothing. */
  lemma ScanAgainAddsNothing(existing: set<string>, candidates: seq<string>)
    ensures NewPaths(existing + Elems(NewPaths(existing, candidates)), candidates) == []
  {
    var after := existing + Elems(NewPaths(existing, candidates));
    NewPathsMembers(existing, candidates);
    NewPathsMembers(after, candidates);
    var again := NewPaths(after, candidates);
    NewPathsDistinct(after, candidates);
    DistinctCard(again);
    assert Elems(again) == {};
  }

  /** `id` is one of the `count` consecutive ids from `start`. */
  predicate InBlock(id: nat, start: nat, count: nat)
  {
    start <= id < start + count
  }

  /** The rows inserted for `paths`, under consecutive ids from `start`. */
  function NewRows(start: nat, paths: seq<string>): (r: map<nat, Row>)
    ensures forall id :: id in r <==> InBlock(id, start, |paths|)
    ensures forall id :: id in r ==> start <= id < start + |paths| && r[id] == NewRow(paths[id - start])
  {
    map id: nat | start <= id < start + |paths| && InBlock(id, start, |paths|) :: NewRow(paths[id - start])
  }

  /** Adding one more path adds one more row, under the next id. */
  lemma AddRowsSnoc(rows: map<nat, Row>, start: nat, paths: seq<string>, p: string)
    requires forall id :: id in rows ==> id < start
    ensures rows + NewRows(start, paths + [p]) == (rows + NewRows(start, paths))[start + |paths| := NewRow(p)]
  {
    var lhs := rows + NewRows(start, paths + [p]);
    var rhs := (rows + NewRows(start, paths))[start + |paths| := NewRow(p)];
    assert lhs.Keys == rhs.Keys;
    forall id | id in lhs ensures lhs[id] == rhs[id] {
      if InBlock(id, start, |paths|) {
        assert (paths + [p])[id - start] == paths[id - start];
      }
    }
  }

  /** One more inserted path adds that path to the stored ones. */
  lemma PathsSnoc(rows: map<nat, Row>, start: nat, paths: seq<string>, p: string)
    requires forall id :: id in rows ==> id < start
    ensures Paths(rows + NewRows(start, paths + [p])) == Paths(rows + NewRows(start, paths)) + {p}
  {
    AddRowsSnoc(rows, start, paths, p);
    PathsInsert(rows + NewRows(start, paths), start + |paths|, NewRow(p));
  }

  /** Adding the rows of one scan stores exactly the inserted paths besides the old ones. */
  lemma {:induction false} PathsAfterInsert(rows: map<nat, Row>, start: nat, paths: seq<string>)
    requires forall id :: id in rows ==> id < start
    ensures Paths(rows + NewRows(start, paths)) == Paths(rows) + Elems(paths)
  {
    if paths == [] {
      assert rows + NewRows(start, paths) == rows;
    } else {
      var init := paths[..|paths| - 1];
      var p := paths[|paths| - 1];
      PathsAfterInsert(rows, start, init);
      assert paths == init + [p];
      PathsSnoc(rows, start, init, p);
      assert Elems(paths) == Elems(init) + {p};
    }
  }

  /** One step of the scan: the next candidate is inserted exactly when it is not stored yet. */
  lemma NewPathsStep(existing: set<string>, candidates: seq<string>, i: nat)
    requires i < |candidates|
    ensures var added := NewPaths(existing, candidates[..i]);
      NewPaths(existing, candidates[..i + 1]) ==
        if candidates[i] in existing + Elems(added) then added else added + [candidates[i]]
  {
    assert candidates[..i + 1][..i] == candidates[..i];
  }

  /** The state the scan keeps after each candidate: the old rows plus one row per inserted path. */
  ghost predicate ScanState(rows: map<nat, Row>, nextId: nat, rows0: map<nat, Row>, start: nat, added: seq<string>)
  {
    && rows == rows0 + NewRows(start, added)
    && nextId == start + |added|
    && Paths(rows) == Paths(rows0) + Elems(added)
  }

  /** Inserting the next new path keeps the scan state. */
  lemma ScanInsert(rows: map<nat, Row>, nextId: nat, rows0: map<nat, Row>, start: nat, added: seq<string>, p: string)
    requires forall id :: id in rows0 ==> id < start
    requires nextId !in rows
    requires ScanState(rows, nextId, rows0, start, added)
    ensures ScanState(rows[nextId := NewRow(p)], nextId + 1, rows0, start, added + [p])
  {
    AddRowsSnoc(rows0, start, added, p);
    PathsInsert(rows, nextId, NewRow(p));
    assert Elems(added + [p]) == Elems(added) + {p};
  }

  /** `scan_and_add_new_files`: inserts a `new` row for every image path not stored yet. */
  method ScanAndAddNewFiles(db: MemeTable, dirExists: bool, entries: seq<Entry>) returns (newCount: nat)
    requires db.Valid()
    modifies db
    ensures db.Valid()
    ensures var added := if dirExists then NewPaths(Paths(old(db.rows)), Candidates(entries)) else [];
      && newCount == |added|
      && db.rows == old(db.rows) + NewRows(old(db.nextId), added)
      && db.nextId == old(db.nextId) + |added|
    ensures forall id :: id in old(db.rows) ==> id in db.rows && db.rows[id] == old(db.rows)[id]
  {
    if !dirExists {
      return 0;
    }
    var imageFiles := Candidates(entries);
    ghost var rows0 := db.rows;
    ghost var start := db.nextId;
    ghost var existing := Paths(rows0);
    newCount := 0;
    assert ScanState(db.rows, db.nextId, rows0, start, []);
    for i := 0 to |imageFiles|
      invariant db.Valid()
      invariant newCount == |NewPaths(existing, imageFiles[..i])|
      invariant ScanState(db.rows, db.nextId, rows0, start, NewPaths(existing, imageFiles[..i]))
    {
      var filePath := imageFiles[i];
      ghost var added := NewPaths(existing, imageFiles[..i]);
      NewPathsStep(existing, imageFiles, i);
      if filePath !in Paths(db.rows) {
        ScanInsert(db.rows, db.nextId, rows0, start, added, filePath);
        InsertKeepsUnique(db.rows, db.nextId, NewRow(filePath));
        db.rows := db.rows[db.nextId := NewRow(filePath)];
        db.nextId := db.nextId + 1;
        newCount := newCount + 1;
      }
    }
    assert imageFiles[..|imageFiles|] == imageFiles;
  }

  /** Running the scan twice over the same files adds nothing the second time. */
  lemma ScanIdempotent(rows: map<nat, Row>, nextId: nat, entries: seq<Entry>)
    requires forall id :: id in rows ==> id < nextId
    ensures var added := NewPaths(Paths(rows), Candidates(entries));
      NewPaths(Paths(rows + NewRows(nextId, added)), Candidates(entries)) == []
  {
    var added := NewPaths(Paths(rows), Candidates(entries));
    PathsAfterInsert(rows, nextId, added);
    ScanAgainAddsNothing(Paths(rows), Candidates(entries));
  }

  // ----------------------------------------------------------------------
  // One meme: the AI answer, fence stripping, parsing and the row update

  /** What `analyze_meme` gives back: text, a list of text chunks, or an exception. */
  datatype AiOutput = AiText(text: string) | AiChunks(chunks: seq<string>) | AiRaised(error: string)

  /** The five descriptive columns an analysis writes. */
  datatype Analysis = Analysis(refContent: Value, template: Value, caption: Value, description: Value, meaning: Value)

  /** The result of processing one meme: the columns to write, or the error message. */
  datatype Outcome = Analysed(fields: Analysis) | Failed(message: string)

  const JsonErrorPrefix := "JSON parsing error: "
  const ProcessingErrorPrefix := "Processing error: "

  /** An error message as the `except` clauses format it: a prefix and the exception's text. */
  function ErrorMessage(prefix: string, detail: string): (m: string)
    ensures StartsWith(m, prefix)
  {
    ConcatEnds(prefix, detail);
    prefix + detail
  }

  /** The response keys, in the order of the UPDATE's parameters. */
  const ResponseKeys: seq<string> := ["references", "template", "caption", "description", "meaning"]

  /** The text of a non-failing answer: a chunk list is joined and stripped. */
  function ResponseText(ai: AiOutput): string
    requires !ai.AiRaised?
  {
    match ai
    case AiText(t) => t
    case AiChunks(c) => Strip(Concat(c))
  }

  /** Drops an opening ```` ```json ```` or ```` ``` ```` and a closing ```` ``` ````, each only if present. */
  function Unfence(s: string): (r: string)
    ensures |r| <= |s|
  {
    var unopened := if StartsWith(s, "```json") then s[7..] else if StartsWith(s, "```") then s[3..] else s;
    if EndsWith(unopened, "```") then unopened[..|unopened| - 3] else unopened
  }

  /** Strips the answer and a surrounding markdown code fence, then strips again. */
  function CleanResponse(raw: string): (r: string)
    ensures IsTrimmed(r)
    ensures |r| <= |raw|
  {
    Strip(Unfence(Strip(raw)))
  }

  /** The fence is removed from around any body. */
  lemma UnfenceFenced(body: string)
    ensures Unfence("```json" + body + "```") == body
  {
    var fenced := "```json" + body + "```";
    assert fenced == "```json" + (body + "```");
    ConcatEnds("```json", body + "```");
    assert fenced[7..] == body + "```";
    ConcatEnds(body, "```");
    assert (body + "```")[..|body|] == body;
  }

  /** Text without fence marks at either end is left alone. */
  lemma UnfenceUnfenced(s: string)
    requires !StartsWith(s, "```") && !EndsWith(s, "```")
    ensures Unfence(s) == s
  {
    if StartsWith(s, "```json") {
      StartsWithPrefix(s, "```", "json");
    }
  }

  /** A fenced answer cleans to its stripped body. */
  lemma CleanFenced(body: string)
    ensures CleanResponse("```json" + body + "```") == Strip(body)
  {
    var fenced := "```json" + body + "```";
    assert fenced[0] == '`';
    assert fenced[|fenced| - 1] == '`';
    StripTrimmed(fenced);
    UnfenceFenced(body);
  }

  /** An answer without fence marks cleans to its stripped text. */
  lemma CleanUnfenced(raw: string)
    requires !StartsWith(Strip(raw), "```") && !EndsWith(Strip(raw), "```")
    ensures CleanResponse(raw) == Strip(raw)
  {
    UnfenceUnfenced(Strip(raw));
    StripIdempotent(raw);
  }

  /** Fencing a clean body does not change what the answer cleans to. */
  lemma FenceTransparent(body: string)
    requires !StartsWith(Strip(body), "```") && !EndsWith(Strip(body), "```")
    ensures CleanResponse("```json" + body + "```") == CleanResponse(body)
  {
    CleanFenced(body);
    CleanUnfenced(body);
  }

  /** The position, from `k` on, of the first value the driver refuses, if any. */
  function FirstUnbindable(vs: seq<Json>, k: nat): (r: Option<nat>)
    requires k <= |vs|
    ensures r.Some? ==> k <= r.value < |vs| && Bind(vs[r.value]).None?
    ensures r.Some? ==> forall j :: k <= j < r.value ==> Bind(vs[j]).Some?
    ensures r.None? ==> forall j :: k <= j < |vs| ==> Bind(vs[j]).Some?
    decreases |vs| - k
  {
    if k == |vs| then None
    else if Bind(vs[k]).None? then Some(k)
    else FirstUnbindable(vs, k + 1)
  }

  /** The `data.get(...)` values of the five response keys. */
  function ResponseValues(fields: map<string, Json>): (vs: seq<Json>)
    ensures |vs| == 5
    ensures forall k :: 0 <= k < 5 ==> vs[k] == Get(fields, ResponseKeys[k])
  {
    seq(5, k requires 0 <= k < 5 => Get(fields, ResponseKeys[k]))
  }

  /**
   * The row update a decoded answer leads to: the five values of an object
   * when the driver can bind them all, otherwise the error `data.get` or the
   * driver raises.
   */
  function Interpret(v: Json): (r: Outcome)
    ensures r.Failed? ==> StartsWith(r.message, ProcessingErrorPrefix)
  {
    match v
    case JObject(fields) =>
      var vs := ResponseValues(fields);
      (match FirstUnbindable(vs, 0)
       case Some(k) =>
         Failed(ErrorMessage(ProcessingErrorPrefix, BindError(vs[k], k + 1)))
       case None =>
         Analysed(Analysis(Bind(vs[0]).value, Bind(vs[1]).value, Bind(vs[2]).value,
           Bind(vs[3]).value, Bind(vs[4]).value)))
    case _ =>
      Failed(ErrorMessage(ProcessingErrorPrefix, "'" + TypeName(v) + "' object has no attribute 'get'"))
  }

  /**
   * `process_meme` up to the row update: the analysis to write, or the error
   * message the `except` clauses build.
   */
  function Analyze(ai: AiOutput, decode: string -> Decoded): (r: Outcome)
    ensures r.Failed? ==> StartsWith(r.message, JsonErrorPrefix) || StartsWith(r.message, ProcessingErrorPrefix)
    ensures ai.AiRaised? ==> r == Failed(ErrorMessage(ProcessingErrorPrefix, ai.error))
    ensures !ai.AiRaised? && decode(CleanResponse(ResponseText(ai))).DecodeError? ==>
      r == Failed(ErrorMessage(JsonErrorPrefix, decode(CleanResponse(ResponseText(ai))).message))
    ensures !ai.AiRaised? && decode(CleanResponse(ResponseText(ai))).Decoded? ==>
      r == Interpret(decode(CleanResponse(ResponseText(ai))).value)
  {
    match ai
    case AiRaised(e) => Failed(ErrorMessage(ProcessingErrorPrefix, e))
    case _ =>
      match decode(CleanResponse(ResponseText(ai)))
      case DecodeError(m) => Failed(ErrorMessage(JsonErrorPrefix, m))
      case Decoded(v) => Interpret(v)
  }

  /** A predicate on the five response values: the driver binds every one of them. */
  predicate AllBindable(fields: map<string, Json>)
  {
    forall k :: 0 <= k < 5 ==> Bind(Get(fields, ResponseKeys[k])).Some?
  }

  /**
   * A decoded answer is written exactly when it is an object whose five values
   * the driver can bind; the bound parameters are those values, and a missing
   * key binds NULL.
   */
  lemma InterpretObject(v: Json)
    ensures Interpret(v).Analysed? <==> v.JObject? && AllBindable(v.fields)
    ensures Interpret(v).Analysed? ==>
      var a := Interpret(v).fields;
      && a.refContent == Bind(Get(v.fields, "references")).value
      && a.template == Bind(Get(v.fields, "template")).value
      && a.caption == Bind(Get(v.fields, "caption")).value
      && a.description == Bind(Get(v.fields, "description")).value
      && a.meaning == Bind(Get(v.fields, "meaning")).value
  {
    if v.JObject? {
      var vs := ResponseValues(v.fields);
      if FirstUnbindable(vs, 0).None? {
        assert AllBindable(v.fields);
      } else {
        var k := FirstUnbindable(vs, 0).value;
        assert Bind(Get(v.fields, ResponseKeys[k])).None?;
      }
    }
  }

  /** A number beyond the 64-bit range is refused by the driver, and the row records a processing error. */
  lemma OversizedNumberFails(fields: map<string, Json>, n: int)
    requires Get(fields, "references") == JNumber(n) && !InIntegerRange(n)
    ensures Interpret(JObject(fields))
      == Failed(ProcessingErrorPrefix + "Python int too large to convert to SQLite INTEGER")
  {
    var vs := ResponseValues(JObject(fields).fields);
    assert vs[0] == JNumber(n);
    assert FirstUnbindable(vs, 0) == Some(0);
  }

  /** What the table holds after a written answer: each bound value as its `TEXT` column keeps it. */
  lemma StoredAnswer(row: Row, fields: map<string, Json>)
    requires AllBindable(fields)
    ensures var r := RowAfter(row, Interpret(JObject(fields)));
      && r.status == "done"
      && r.refContent == TextAffinity(Bind(Get(fields, "references")).value)
      && r.template == TextAffinity(Bind(Get(fields, "template")).value)
      && r.caption == TextAffinity(Bind(Get(fields, "caption")).value)
      && r.description == TextAffinity(Bind(Get(fields, "description")).value)
      && r.meaning == TextAffinity(Bind(Get(fields, "meaning")).value)
  {
    InterpretObject(JObject(fields));
  }

  /** A number in the answer is stored as its decimal text: a caption of 0 is the text `0`. */
  lemma ZeroCaptionStoredAsText(row: Row, fields: map<string, Json>)
    requires AllBindable(fields) && Get(fields, "caption") == JNumber(0)
    ensures RowAfter(row, Interpret(JObject(fields))).caption == Str("0")
  {
    StoredAnswer(row, fields);
  }

  /** Keys the answer leaves out are written as NULL. */
  lemma MissingKeysWriteNull(fields: map<string, Json>)
    requires AllBindable(fields)
    ensures var a := Interpret(JObject(fields)).fields;
      && ("references" !in fields ==> a.refContent == Null)
      && ("template" !in fields ==> a.template == Null)
      && ("caption" !in fields ==> a.caption == Null)
      && ("description" !in fields ==> a.description == Null)
      && ("meaning" !in fields ==> a.meaning == Null)
  {
    InterpretObject(JObject(fields));
  }

  /** The image URL `analyze_meme` sends: the public files location and the file's name. */
  const PublicFilesBase := "https://memes.tmn.name/files/"

  function AnalysisUrl(filePath: string): (url: string)
    ensures StartsWith(url, PublicFilesBase)
  {
    ConcatEnds(PublicFilesBase, Name(filePath));
    PublicFilesBase + Name(filePath)
  }

  /** A file inside the memes directory is published under its own name. */
  lemma AnalysisUrlOfChild(dir: string, n: string)
    requires n != "" && n != "." && forall j :: 0 <= j < |n| ==> n[j] != '/'
    ensures AnalysisUrl(dir + "/" + n) == PublicFilesBase + n
  {
    NameOfChild(dir, n);
  }

  /** What processing the meme stored at `filePath` comes to, given the AI service and `json.loads`. */
  function MemeOutcome(filePath: string, ask: string -> AiOutput, decode: string -> Decoded): Outcome
  {
    Analyze(ask(AnalysisUrl(filePath)), decode)
  }

  // ----------------------------------------------------------------------
  // Row updates

  /**
   * The row after `process_meme`'s UPDATE: on success `done`, the five
   * columns as their `TEXT` declaration keeps them, and no error; on failure
   * `error` and the message, every descriptive column as it was.
   */
  function RowAfter(row: Row, o: Outcome): (r: Row)
    ensures r.filePath == row.filePath
    ensures o.Analysed? ==> r.status == "done" && r.errorMessage == Null
    ensures o.Analysed? ==>
      && r.refContent == TextAffinity(o.fields.refContent) && r.template == TextAffinity(o.fields.template)
      && r.caption == TextAffinity(o.fields.caption) && r.description == TextAffinity(o.fields.description)
      && r.meaning == TextAffinity(o.fields.meaning)
    ensures o.Failed? ==> r.status == "error" && r.errorMessage == Str(o.message)
    ensures o.Failed? ==>
      && r.refContent == row.refContent && r.template == row.template
      && r.caption == row.caption && r.description == row.description && r.meaning == row.meaning
  {
    match o
    case Analysed(a) =>
      row.(status := "done", refContent := TextAffinity(a.refContent), template := TextAffinity(a.template),
           caption := TextAffinity(a.caption), description := TextAffinity(a.description),
           meaning := TextAffinity(a.meaning), errorMessage := Null)
    case Failed(m) => row.(status := "error", errorMessage := Str(m))
  }

  /** Writing the same outcome twice leaves the row as writing it once. */
  lemma RowAfterIdempotent(row: Row, o: Outcome)
    ensures RowAfter(RowAfter(row, o), o) == RowAfter(row, o)
  {
  }

  /** A successful retry overwrites every trace of an earlier failure. */
  lemma RetryForgetsFailure(row: Row, message: string, a: Analysis)
    ensures RowAfter(RowAfter(row, Failed(message)), Analysed(a)) == RowAfter(row, Analysed(a))
  {
  }

  /** `UPDATE ... WHERE id = ?`: the row with that id, if there is one, gets the outcome. */
  function ApplyOutcome(rows: map<nat, Row>, id: nat, o: Outcome): (r: map<nat, Row>)
    ensures r.Keys == rows.Keys
    ensures id in rows ==> r[id] == RowAfter(rows[id], o)
    ensures forall k :: k in rows && k != id ==> r[k] == rows[k]
  {
    if id in rows then rows[id := RowAfter(rows[id], o)] else rows
  }

  /** The outcome's update keeps every stored path, so the `UNIQUE` constraint still holds. */
  lemma ApplyOutcomeKeepsPaths(rows: map<nat, Row>, id: nat, o: Outcome)
    requires UniquePaths(rows)
    ensures Paths(ApplyOutcome(rows, id, o)) == Paths(rows)
    ensures UniquePaths(ApplyOutcome(rows, id, o))
  {
    if id in rows {
      PathsReplace(rows, id, RowAfter(rows[id], o));
      ReplaceKeepsUnique(rows, id, RowAfter(rows[id], o));
    }
  }

  /** `process_meme`: asks the AI about the meme, writes the outcome into its row, and reports success. */
  method ProcessMeme(db: MemeTable, memeId: nat, filePath: string, ask: string -> AiOutput, decode: string -> Decoded)
    returns (ok: bool)
    requires db.Valid()
    modifies db
    ensures db.Valid() && db.nextId == old(db.nextId)
    ensures ok <==> MemeOutcome(filePath, ask, decode).Analysed?
    ensures db.rows == ApplyOutcome(old(db.rows), memeId, MemeOutcome(filePath, ask, decode))
  {
    var outcome := Analyze(ask(AnalysisUrl(filePath)), decode);
    ApplyOutcomeKeepsPaths(db.rows, memeId, outcome);
    db.rows := ApplyOutcome(db.rows, memeId, outcome);
    ok := outcome.Analysed?;
  }

  // ----------------------------------------------------------------------
  // Batch processing

  /** The statuses the batch picks up: `new`, and `error` when retrying errors. */
  predicate Selected(status: string, includeErrors: bool)
  {
    status == "new" || (includeErrors && status == "error")
  }

  /**
   * The ids below `bound` whose rows the batch query selects, oldest first.
   * Rows are inserted in id order, so id order stands for `ORDER BY created_at`.
   */
  function PendingIds(rows: map<nat, Row>, bound: nat, includeErrors: bool): (r: seq<nat>)
    ensures forall i, j :: 0 <= i < j < |r| ==> r[i] < r[j]
    ensures forall id :: id in r <==> id in rows && id < bound && Selected(rows[id].status, includeErrors)
  {
    if bound == 0 then []
    else
      var earlier := PendingIds(rows, bound - 1, includeErrors);
      var id := bound - 1;
      assert forall k :: 0 <= k < |earlier| ==> earlier[k] < id by {
        forall k | 0 <= k < |earlier| ensures earlier[k] < id {
          assert earlier[k] in earlier;
        }
      }
      if id in rows && Selected(rows[id].status, includeErrors) then earlier + [id] else earlier
  }

  /** The rows after every id in `ids` has been processed once, each with its own outcome. */
  function Processed(rows: map<nat, Row>, ids: set<nat>, ask: string -> AiOutput, decode: string -> Decoded)
    : (r: map<nat, Row>)
    ensures r.Keys == rows.Keys
    ensures forall id :: id in rows && id in ids ==>
      r[id] == RowAfter(rows[id], MemeOutcome(rows[id].filePath, ask, decode))
    ensures forall id :: id in rows && id !in ids ==> r[id] == rows[id]
  {
    map id | id in rows :: if id in ids then RowAfter(rows[id], MemeOutcome(rows[id].filePath, ask, decode)) else rows[id]
  }

  /** How many of `ids` process successfully. */
  function CountAnalysed(rows: map<nat, Row>, ids: seq<nat>, ask: string -> AiOutput, decode: string -> Decoded)
    : (n: nat)
    requires forall k :: 0 <= k < |ids| ==> ids[k] in rows
    ensures n <= |ids|
  {
    if ids == [] then 0
    else
      var id := ids[|ids| - 1];
      CountAnalysed(rows, ids[..|ids| - 1], ask, decode)
        + (if MemeOutcome(rows[id].filePath, ask, decode).Analysed? then 1 else 0)
  }

  /** Counting over one more id adds that id's success. */
  lemma CountAnalysedStep(rows: map<nat, Row>, ids: seq<nat>, i: nat, ask: string -> AiOutput, decode: string -> Decoded)
    requires i < |ids| && forall k :: 0 <= k < |ids| ==> ids[k] in rows
    ensures CountAnalysed(rows, ids[..i + 1], ask, decode) == CountAnalysed(rows, ids[..i], ask, decode)
      + (if MemeOutcome(rows[ids[i]].filePath, ask, decode).Analysed? then 1 else 0)
  {
    assert ids[..i + 1][..i] == ids[..i];
  }

  /** Processing one more pending id extends the processed set by that id. */
  lemma ProcessedStep(rows: map<nat, Row>, ids: seq<nat>, i: nat, ask: string -> AiOutput, decode: string -> Decoded)
    requires i < |ids| && ids[i] in rows
    requires forall j, k :: 0 <= j < k < |ids| ==> ids[j] < ids[k]
    ensures ApplyOutcome(Processed(rows, Elems(ids[..i]), ask, decode), ids[i], MemeOutcome(rows[ids[i]].filePath, ask, decode))
      == Processed(rows, Elems(ids[..i + 1]), ask, decode)
  {
    assert ids[..i + 1] == ids[..i] + [ids[i]];
    assert Elems(ids[..i + 1]) == Elems(ids[..i]) + {ids[i]};
    assert ids[i] !in Elems(ids[..i]);
  }

  /** Where the batch stands after its first `i` pending ids. */
  ghost predicate BatchState(rows: map<nat, Row>, snapshot: map<nat, Row>, pending: seq<nat>, i: nat,
                             successCount: nat, errorCount: nat, ask: string -> AiOutput, decode: string -> Decoded)
  {
    && i <= |pending|
    && (forall k :: 0 <= k < |pending| ==> pending[k] in snapshot)
    && rows == Processed(snapshot, Elems(pending[..i]), ask, decode)
    && successCount == CountAnalysed(snapshot, pending[..i], ask, decode)
    && successCount + errorCount == i
  }

  /** Processing the next pending id moves the batch one step on. */
  lemma BatchStep(rows: map<nat, Row>, snapshot: map<nat, Row>, pending: seq<nat>, i: nat,
                  successCount: nat, errorCount: nat, ask: string -> AiOutput, decode: string -> Decoded)
    requires BatchState(rows, snapshot, pending, i, successCount, errorCount, ask, decode) && i < |pending|
    requires forall j, k :: 0 <= j < k < |pending| ==> pending[j] < pending[k]
    ensures pending[i] in snapshot
    ensures var o := MemeOutcome(snapshot[pending[i]].filePath, ask, decode);
      BatchState(ApplyOutcome(rows, pending[i], o), snapshot, pending, i + 1,
        successCount + (if o.Analysed? then 1 else 0), errorCount + (if o.Analysed? then 0 else 1), ask, decode)
  {
    ProcessedStep(snapshot, pending, i, ask, decode);
    CountAnalysedStep(snapshot, pending, i, ask, decode);
  }

  /**
   * `process_pending_memes`: processes every selected row once, oldest first,
   * and counts the successes and the failures.
   */
  method ProcessPendingMemes(db: MemeTable, includeErrors: bool, ask: string -> AiOutput, decode: string -> Decoded)
    returns (successCount: nat, errorCount: nat)
    requires db.Valid()
    modifies db
    ensures db.Valid() && db.nextId == old(db.nextId)
    ensures var pending := PendingIds(old(db.rows), old(db.nextId), includeErrors);
      && db.rows == Processed(old(db.rows), Elems(pending), ask, decode)
      && successCount == CountAnalysed(old(db.rows), pending, ask, decode)
      && successCount + errorCount == |pending|
  {
    var snapshot := db.rows;
    var pending := PendingIds(db.rows, db.nextId, includeErrors);
    BatchStart(snapshot, db.nextId, includeErrors, ask, decode);
    successCount, errorCount := 0, 0;
    for i := 0 to |pending|
      invariant db.Valid() && db.nextId == old(db.nextId)
      invariant BatchState(db.rows, snapshot, pending, i, successCount, errorCount, ask, decode)
    {
      var id := pending[i];
      BatchStep(db.rows, snapshot, pending, i, successCount, errorCount, ask, decode);
      var ok := ProcessMeme(db, id, snapshot[id].filePath, ask, decode);
      if ok {
        successCount := successCount + 1;
      } else {
        errorCount := errorCount + 1;
      }
    }
    BatchEnd(db.rows, snapshot, pending, successCount, errorCount, ask, decode);
  }

  /** Before the loop: nothing processed, nothing counted, every pending id a stored row. */
  lemma BatchStart(rows: map<nat, Row>, bound: nat, includeErrors: bool, ask: string -> AiOutput, decode: string -> Decoded)
    ensures BatchState(rows, rows, PendingIds(rows, bound, includeErrors), 0, 0, 0, ask, decode)
  {
    var pending := PendingIds(rows, bound, includeErrors);
    forall k | 0 <= k < |pending| ensures pending[k] in rows {
      assert pending[k] in pending;
    }
    assert Elems(pending[..0]) == {};
  }

  /** After the loop: every pending id processed once and counted once. */
  lemma BatchEnd(rows: map<nat, Row>, snapshot: map<nat, Row>, pending: seq<nat>,
                 successCount: nat, errorCount: nat, ask: string -> AiOutput, decode: string -> Decoded)
    requires BatchState(rows, snapshot, pending, |pending|, successCount, errorCount, ask, decode)
    ensures rows == Processed(snapshot, Elems(pending), ask, decode)
    ensures successCount == CountAnalysed(snapshot, pending, ask, decode)
    ensures successCount + errorCount == |pending|
  {
    assert pending[..|pending|] == pending;
  }

  /** After a batch without retries, no row of the table is `new` any more. */
  lemma BatchLeavesNothingNew(rows: map<nat, Row>, bound: nat, ask: string -> AiOutput, decode: string -> Decoded)
    requires forall id :: id in rows ==> id < bound
    ensures var after := Processed(rows, Elems(PendingIds(rows, bound, false)), ask, decode);
      PendingIds(after, bound, false) == []
  {
    var after := Processed(rows, Elems(PendingIds(rows, bound, false)), ask, decode);
    var again := PendingIds(after, bound, false);
    DistinctCard(again);
    assert Elems(again) == {};
  }

  /** After a batch with retries, exactly the rows whose processing failed are selected again. */
  lemma BatchReselectsFailures(rows: map<nat, Row>, bound: nat, ask: string -> AiOutput, decode: string -> Decoded)
    requires forall id :: id in rows ==> id < bound
    ensures var pending := PendingIds(rows, bound, true);
      var after := Processed(rows, Elems(pending), ask, decode);
      forall id :: id in PendingIds(after, bound, true) <==>
        id in pending && MemeOutcome(rows[id].filePath, ask, decode).Failed?
  {
  }
}
