/** The subtitle candidate pipeline of `BatchSubs` (src/batchsubs.py): keep the
    video files of the requested format, project every search record onto the
    ten fields the tool uses, rank the candidates by download count, pick the
    requested rank (clamping it when it is too large, and remembering the
    clamped rank for later files), and map each chosen subtitle file id to the
    path its `.srt` file is saved under. */
module BatchSubs {
  import opened PyValues
  import StableSort

  // ---------------------------------------------------------------------------
  // Projection (`_clean_up`)
  // ---------------------------------------------------------------------------

  /** The fields a cleaned record keeps, in the order the source lists them. */
  const InterestingData: seq<string> :=
    ["SubComments", "SubFileName", "SubBad", "SubLanguageID", "SeriesEpisode",
     "SubEncoding", "SubDownloadsCnt", "SeriesSeason", "IDSubtitle", "IDSubtitleFile"]

  /** `rec.get(key, None)`. */
  function Get(rec: Record, key: string): Value {
    if key in rec then rec[key] else Null
  }

  const AllowedKeys: set<string> := set k | k in InterestingData

  /** A cleaned record: exactly the allow-listed keys. */
  predicate IsClean(rec: Record) {
    rec.Keys == AllowedKeys
  }

  /** `{k: elem.get(k, None) for k in interesting_data}`. */
  function Project(elem: Record): (clean: Record)
    ensures IsClean(clean)
    ensures forall k :: k in clean ==> clean[k] == Get(elem, k)
  {
    map k | k in InterestingData :: Get(elem, k)
  }

  /** Projection only looks at the allow-listed keys: records that agree on
      them project alike. */
  lemma ProjectOnlyReadsAllowed(a: Record, b: Record)
    requires forall k :: k in InterestingData ==> Get(a, k) == Get(b, k)
    ensures Project(a) == Project(b)
  {
  }

  /** A cleaned record is left as it is, so cleaning twice is cleaning once. */
  lemma ProjectIdempotent(elem: Record)
    ensures IsClean(elem) ==> Project(elem) == elem
    ensures Project(Project(elem)) == Project(elem)
  {
    var p := Project(elem);
    assert Project(p) == p;
    if IsClean(elem) {
      assert Project(elem).Keys == elem.Keys;
    }
  }

  /** The list `_clean_up` returns. */
  function Cleaned(subtitles: seq<Record>): (clean: seq<Record>)
    ensures |clean| == |subtitles|
    ensures forall i :: 0 <= i < |subtitles| ==> clean[i] == Project(subtitles[i])
  {
    if subtitles == [] then [] else [Project(subtitles[0])] + Cleaned(subtitles[1..])
  }

  /** Every record of a cleaned list is clean and has the fields the save
      path is built from. */
  lemma CleanedHavePathFields(subtitles: seq<Record>, x: Record)
    requires x in Cleaned(subtitles)
    ensures IsClean(x) && HasPathFields(x)
  {
    var i :| 0 <= i < |subtitles| && Cleaned(subtitles)[i] == x;
    CleanHasPathFields(x);
  }

  // ---------------------------------------------------------------------------
  // Ranking and selection (`_get_choice`)
  // ---------------------------------------------------------------------------

  /** `int(k['SubDownloadsCnt'])`. */
  function DownloadCount(rec: Record): (r: Result<int>)
    ensures r == Failure(KeyError) <==> "SubDownloadsCnt" !in rec
    ensures r.Failure? ==> r.error != IndexError
  {
    if "SubDownloadsCnt" in rec then PyInt(rec["SubDownloadsCnt"]) else Failure(KeyError)
  }

  /** The sort key once every count is known to parse. */
  function SortKey(rec: Record): int {
    match DownloadCount(rec)
    case Success(n) => n
    case Failure(_) => 0
  }

  /** `sorted` computes the key of every record, in list order, before it
      compares anything: either all keys, or the error of the first record
      whose count does not parse. */
  function Counts(subtitles: seq<Record>): (r: Result<seq<int>>)
    ensures r.Success? ==>
      && |r.value| == |subtitles|
      && forall i :: 0 <= i < |subtitles| ==> DownloadCount(subtitles[i]) == Success(r.value[i])
    ensures r.Failure? ==>
      exists i :: 0 <= i < |subtitles| && DownloadCount(subtitles[i]) == Failure(r.error)
        && forall j :: 0 <= j < i ==> DownloadCount(subtitles[j]).Success?
  {
    if subtitles == [] then Success([])
    else match DownloadCount(subtitles[0])
      case Failure(e) => Failure(e)
      case Success(n) =>
        match Counts(subtitles[1..])
        case Failure(e) =>
          ghost var i :| 0 <= i < |subtitles[1..]| && DownloadCount(subtitles[1..][i]) == Failure(e)
            && forall j :: 0 <= j < i ==> DownloadCount(subtitles[1..][j]).Success?;
          assert DownloadCount(subtitles[i + 1]) == Failure(e);
          assert forall j :: 0 <= j < i + 1 ==> DownloadCount(subtitles[j]).Success? by {
            forall j | 0 < j < i + 1 ensures DownloadCount(subtitles[j]).Success? {
              assert subtitles[j] == subtitles[1..][j - 1];
            }
          }
          Failure(e)
        case Success(ns) => Success([n] + ns)
  }

  /** `sorted(subtitle_list, key=lambda k: int(k['SubDownloadsCnt']),
      reverse=True)`, or the error of the first count that does not parse. */
  function Rank(subtitles: seq<Record>): (r: Result<seq<Record>>)
    ensures r.Success? ==> multiset(r.value) == multiset(subtitles) && |r.value| == |subtitles|
  {
    match Counts(subtitles)
    case Failure(e) => Failure(e)
    case Success(_) =>
      StableSort.SortDescIsStableSortDesc(subtitles, SortKey);
      Success(StableSort.SortDesc(subtitles, SortKey))
  }

  /** Ranking succeeds exactly when every download count parses. It then
      gives the candidates most downloaded first, ties in their original
      order, as a permutation of the input; otherwise it fails with the error
      of the first count that does not parse. */
  lemma RankIsStableSortByDownloads(subtitles: seq<Record>)
    ensures var r := Rank(subtitles);
      && (r.Success? <==> forall i :: 0 <= i < |subtitles| ==> DownloadCount(subtitles[i]).Success?)
      && (r.Success? ==>
          && |r.value| == |subtitles|
          && multiset(r.value) == multiset(subtitles)
          && StableSort.IsStableSortDesc(subtitles, r.value, SortKey)
          && (forall x :: x in r.value ==> DownloadCount(x) == Success(SortKey(x)))
          && (forall i, j :: 0 <= i < j < |r.value| ==> SortKey(r.value[i]) >= SortKey(r.value[j])))
      && (r.Failure? ==>
          exists i :: 0 <= i < |subtitles| && DownloadCount(subtitles[i]) == Failure(r.error)
            && forall j :: 0 <= j < i ==> DownloadCount(subtitles[j]).Success?)
  {
    var r := Rank(subtitles);
    if r.Success? {
      StableSort.SortDescIsStableSortDesc(subtitles, SortKey);
      forall x | x in r.value ensures DownloadCount(x) == Success(SortKey(x)) {
        assert x in multiset(subtitles);
      }
    }
  }

  /** What `_get_choice` returns, and the value of `self.choice` after it. */
  datatype Selection = Selection(subtitle: Result<Record>, choice: int)

  /** `_get_choice(subtitle_list, number)` with `self.choice == choice`:
      `newlist[number - 1]`, and when that index is out of range
      `self.choice = len(newlist)` followed by `newlist[-1]`. */
  function Select(subtitles: seq<Record>, number: int, choice: int): (s: Selection)
    ensures s.subtitle.Success? ==> s.subtitle.value in subtitles
  {
    match Rank(subtitles)
    case Failure(e) => Selection(Failure(e), choice)
    case Success(newlist) =>
      assert forall i :: 0 <= i < |newlist| ==> newlist[i] in multiset(newlist);
      match PyIndex(|newlist|, number - 1)
      case Success(i) => Selection(Success(newlist[i]), choice)
      case Failure(_) =>
        match PyIndex(|newlist|, -1)
        case Success(i) => Selection(Success(newlist[i]), |newlist|)
        case Failure(e) => Selection(Failure(e), |newlist|)
  }

  /** The outcomes of a selection, by requested rank. */
  lemma SelectCases(subtitles: seq<Record>, number: int, choice: int)
    ensures var s, r, n := Select(subtitles, number, choice), Rank(subtitles), |subtitles|;
      // a count that does not parse: its error, rank untouched
      && (r.Failure? ==> s == Selection(Failure(r.error), choice))
      // no candidates: the rank is set to 0, then the fallback index fails too
      && (r.Success? && n == 0 ==> s == Selection(Failure(IndexError), 0))
      // the requested rank exists
      && (r.Success? && 1 <= number <= n ==> s == Selection(Success(r.value[number - 1]), choice))
      // zero and small negative ranks count from the end, rank untouched
      && (r.Success? && 1 - n <= number <= 0 ==> s == Selection(Success(r.value[n + number - 1]), choice))
      // any other rank: clamp to the last candidate and remember the clamped rank
      && (r.Success? && n > 0 && (number > n || number < 1 - n) ==>
            s == Selection(Success(r.value[n - 1]), n))
  {
  }

  /** A candidate that has been downloaded `count` times. */
  function Downloaded(count: string): Record {
    map["SubDownloadsCnt" := Text(count)]
  }

  /** Candidates downloaded 5, 50 and 20 times rank as 50, 20, 5. */
  lemma RankExample()
    ensures Rank([Downloaded("5"), Downloaded("50"), Downloaded("20")])
         == Success([Downloaded("50"), Downloaded("20"), Downloaded("5")])
  {
    var d5, d50, d20 := Downloaded("5"), Downloaded("50"), Downloaded("20");
    var subs := [d5, d50, d20];
    assert DownloadCount(d5) == Success(5);
    assert DownloadCount(d50) == Success(50);
    assert DownloadCount(d20) == Success(20);
    assert Counts(subs).Success?;
    assert SortKey(d5) == 5 && SortKey(d50) == 50 && SortKey(d20) == 20;
    assert subs[1..] == [d50, d20] && subs[1..][1..] == [d20] && [d20][1..] == [];
    assert StableSort.SortDesc([d20], SortKey) == [d20];
    assert StableSort.SortDesc([d50, d20], SortKey) == [d50, d20];
    assert StableSort.Insert(d5, [d20], SortKey) == [d20, d5];
    assert StableSort.Insert(d5, [d50, d20], SortKey) == [d50, d20, d5];
  }

  /** With those candidates, rank 2 is the one downloaded 20 times, and rank
      10 clamps to the one downloaded 5 times, with effective rank 3. */
  lemma SelectExample()
    ensures var subs := [Downloaded("5"), Downloaded("50"), Downloaded("20")];
      && Select(subs, 2, 2) == Selection(Success(Downloaded("20")), 2)
      && Select(subs, 10, 10) == Selection(Success(Downloaded("5")), 3)
  {
    RankExample();
  }

  // ---------------------------------------------------------------------------
  // The file filter
  // ---------------------------------------------------------------------------

  /** `name.split('.')[-1]`. */
  function Extension(name: string): string {
    if name == [] || name[|name| - 1] == '.' then []
    else Extension(name[..|name| - 1]) + [name[|name| - 1]]
  }

  /** The extension is the longest suffix of the name without a dot: either
      the whole name, or what follows its last dot. */
  lemma {:induction false} ExtensionIsLastPart(name: string)
    ensures var ext := Extension(name);
      && |ext| <= |name| && ext == name[|name| - |ext|..]
      && '.' !in ext
      && (|ext| < |name| ==> name[|name| - |ext| - 1] == '.')
  {
    if name != [] && name[|name| - 1] != '.' {
      var init := name[..|name| - 1];
      ExtensionIsLastPart(init);
      var e := Extension(init);
      var ext := e + [name[|name| - 1]];
      assert Extension(name) == ext;
      SuffixSnoc(name, e);
      assert '.' !in ext;
    }
  }

  /** A suffix `e` of `name` without its last character, extended by that
      character, is a suffix of `name`. */
  lemma SuffixSnoc(name: string, e: string)
    requires |name| > 0
    requires |e| <= |name| - 1 && e == name[..|name| - 1][|name| - 1 - |e|..]
    ensures e + [name[|name| - 1]] == name[|name| - |e| - 1..]
    ensures |e| < |name| - 1 ==> name[|name| - |e| - 2] == name[..|name| - 1][|name| - 1 - |e| - 1]
  {
  }

  /** Whatever precedes the last dot, the extension is what follows it. */
  lemma {:induction false} ExtensionAfterLastDot(stem: string, ext: string)
    requires '.' !in ext
    ensures Extension(stem + "." + ext) == ext
  {
    if ext != [] {
      var name := stem + "." + ext;
      assert name[..|name| - 1] == stem + "." + ext[..|ext| - 1];
      ExtensionAfterLastDot(stem, ext[..|ext| - 1]);
      assert ext == ext[..|ext| - 1] + [ext[|ext| - 1]];
    }
  }

  /** A name without a dot is its own extension. */
  lemma NoDotExtension(name: string)
    requires '.' !in name
    ensures Extension(name) == name
  {
    ExtensionIsLastPart(name);
  }

  /** `[f for f in listdir(folder) if f.split('.')[-1] == video_format]`. */
  function FilterByFormat(listing: seq<string>, videoFormat: string): seq<string> {
    if listing == [] then []
    else
      (if Extension(listing[0]) == videoFormat then [listing[0]] else [])
      + FilterByFormat(listing[1..], videoFormat)
  }

  /** A directory entry is kept exactly when its extension is the requested
      format, and nothing else is added. */
  lemma {:induction false} FilterByFormatKeeps(listing: seq<string>, videoFormat: string)
    ensures |FilterByFormat(listing, videoFormat)| <= |listing|
    ensures forall f :: f in FilterByFormat(listing, videoFormat) <==> f in listing && Extension(f) == videoFormat
  {
    if listing != [] {
      FilterByFormatKeeps(listing[1..], videoFormat);
      assert listing == [listing[0]] + listing[1..];
    }
  }

  /** The filter keeps the listing order: filtering a concatenation is
      concatenating the filtered parts. */
  lemma {:induction false} FilterByFormatAppend(a: seq<string>, b: seq<string>, videoFormat: string)
    ensures FilterByFormat(a + b, videoFormat) == FilterByFormat(a, videoFormat) + FilterByFormat(b, videoFormat)
  {
    if a == [] {
      assert a + b == b;
    } else {
      assert (a + b)[0] == a[0] && (a + b)[1..] == a[1..] + b;
      FilterByFormatAppend(a[1..], b, videoFormat);
      var first := if Extension(a[0]) == videoFormat then [a[0]] else [];
      calc {
        FilterByFormat(a + b, videoFormat);
        first + FilterByFormat(a[1..] + b, videoFormat);
        first + (FilterByFormat(a[1..], videoFormat) + FilterByFormat(b, videoFormat));
        (first + FilterByFormat(a[1..], videoFormat)) + FilterByFormat(b, videoFormat);
      }
    }
  }

  /** A folder with `ep1.mkv` and a previously saved `ep1.srt`: only the
      video is kept. */
  lemma FilterByFormatExample()
    ensures FilterByFormat(["ep1.mkv", "ep1.srt"], "mkv") == ["ep1.mkv"]
  {
    assert "ep1.mkv" == "ep1" + "." + "mkv" && "ep1.srt" == "ep1" + "." + "srt";
    ExtensionAfterLastDot("ep1", "mkv");
    ExtensionAfterLastDot("ep1", "srt");
    assert ["ep1.mkv", "ep1.srt"][1..] == ["ep1.srt"];
  }

  // ---------------------------------------------------------------------------
  // Save paths and the download list
  // ---------------------------------------------------------------------------

  /** The record has the fields the save path is built from. */
  predicate HasPathFields(subtitle: Record) {
    && "SeriesSeason" in subtitle && "SeriesEpisode" in subtitle && "SubLanguageID" in subtitle
    && "SubFileName" in subtitle && "SubEncoding" in subtitle && "IDSubtitleFile" in subtitle
  }

  lemma CleanHasPathFields(subtitle: Record)
    requires IsClean(subtitle)
    ensures HasPathFields(subtitle)
  {
    assert InterestingData[1] == "SubFileName" && InterestingData[3] == "SubLanguageID";
    assert InterestingData[4] == "SeriesEpisode" && InterestingData[5] == "SubEncoding";
    assert InterestingData[7] == "SeriesSeason" && InterestingData[9] == "IDSubtitleFile";
  }

  /** `"/".join((folder, file_name))`. */
  function JoinPath(folder: string, name: string): (path: string)
    ensures |path| == |folder| + 1 + |name|
    ensures path[..|folder|] == folder && path[|folder|] == '/' && path[|folder| + 1..] == name
  {
    folder + "/" + name
  }

  /** The save path up to the rank: `{folder}/S{season}E{episode}_`. */
  function PathHead(folder: string, subtitle: Record): string
    requires HasPathFields(subtitle)
  {
    folder + "/S" + Str(subtitle["SeriesSeason"]) + "E" + Str(subtitle["SeriesEpisode"]) + "_"
  }

  /** The save path after the rank: `_{lang}_{name}_{encoding}_ID-{id}.srt`. */
  function PathTail(subtitle: Record): string
    requires HasPathFields(subtitle)
  {
    "_" + Str(subtitle["SubLanguageID"]) + "_" + Str(subtitle["SubFileName"])
    + "_" + Str(subtitle["SubEncoding"]) + "_ID-" + Str(subtitle["IDSubtitleFile"]) + ".srt"
  }

  /** `u"{0}/S{1}E{2}_{3}_{4}_{5}_{6}_ID-{7}.srt".format(...)` with the
      chosen subtitle's fields and the rank `self.choice` holds after the
      selection. */
  function SavePath(folder: string, subtitle: Record, choice: int): string
    requires HasPathFields(subtitle)
  {
    PathHead(folder, subtitle) + IntToDecimal(choice) + PathTail(subtitle)
  }

  /** The layout of a save path: it lies in `folder`, starts with `S`, ends
      in `.srt`, and carries the effective rank in decimal between the
      underscores after the episode number, where it reads back as that
      rank. */
  lemma SavePathRank(folder: string, subtitle: Record, choice: int)
    requires HasPathFields(subtitle)
    ensures
      var path := SavePath(folder, subtitle, choice);
      var start := |folder| + 2 + |Str(subtitle["SeriesSeason"])| + 1 + |Str(subtitle["SeriesEpisode"])| + 1;
      var end := start + |IntToDecimal(choice)|;
      && end + 5 <= |path|
      && path[..|folder| + 2] == folder + "/S"
      && path[|path| - 4..] == ".srt"
      && path[start - 1] == '_' && path[end] == '_'
      && ParseDecimal(path[start..end]) == Success(choice)
  {
    var head, rank, tail := PathHead(folder, subtitle), IntToDecimal(choice), PathTail(subtitle);
    PathHeadShape(folder, subtitle);
    PathTailShape(subtitle);
    ConcatParts(head, rank, tail);
    IntToDecimalRoundTrip(choice);
  }

  lemma PathHeadShape(folder: string, subtitle: Record)
    requires HasPathFields(subtitle)
    ensures var head := PathHead(folder, subtitle);
      && |head| == |folder| + 2 + |Str(subtitle["SeriesSeason"])| + 1 + |Str(subtitle["SeriesEpisode"])| + 1
      && head[..|folder| + 2] == folder + "/S"
      && head[|head| - 1] == '_'
  {
    var rest := Str(subtitle["SeriesSeason"]) + "E" + Str(subtitle["SeriesEpisode"]) + "_";
    assert PathHead(folder, subtitle) == (folder + "/S") + rest;
  }

  lemma PathTailShape(subtitle: Record)
    requires HasPathFields(subtitle)
    ensures var tail := PathTail(subtitle);
      && |tail| >= 5 && tail[0] == '_' && tail[|tail| - 4..] == ".srt"
  {
    var front := "_" + Str(subtitle["SubLanguageID"]) + "_" + Str(subtitle["SubFileName"])
      + "_" + Str(subtitle["SubEncoding"]) + "_ID-" + Str(subtitle["IDSubtitleFile"]);
    assert PathTail(subtitle) == front + ".srt";
    assert front[0] == '_';
  }

  lemma ConcatParts(head: string, rank: string, tail: string)
    ensures var path := head + rank + tail;
      && |path| == |head| + |rank| + |tail|
      && (|head| > 0 ==> path[..|head|] == head && path[|head| - 1] == head[|head| - 1])
      && path[|head|..|head| + |rank|] == rank
      && (|tail| > 0 ==> path[|head| + |rank|] == tail[0])
      && path[|head| + |rank|..] == tail
  {
  }

  /** One assignment `download_list[id] = save_path`. */
  datatype Entry = Entry(id: Value, path: string)

  /** The dictionary after the assignments `es`, in order, starting from `m`. */
  function Apply(m: map<Value, string>, es: seq<Entry>): map<Value, string> {
    if es == [] then m
    else Apply(m, es[..|es| - 1])[es[|es| - 1].id := es[|es| - 1].path]
  }

  /** The keys after the assignments are the old keys and the assigned ids. */
  lemma {:induction false} ApplyKeys(m: map<Value, string>, es: seq<Entry>)
    ensures Apply(m, es).Keys == m.Keys + set e | e in es :: e.id
  {
    if es != [] {
      var init := es[..|es| - 1];
      ApplyKeys(m, init);
      assert es == init + [es[|es| - 1]];
      assert (set e | e in es :: e.id) == (set e | e in init :: e.id) + {es[|es| - 1].id};
    }
  }

  /** The last assignment to an id wins. */
  lemma {:induction false} ApplyLastWins(m: map<Value, string>, es: seq<Entry>, i: nat)
    requires i < |es|
    requires forall j :: i < j < |es| ==> es[j].id != es[i].id
    ensures es[i].id in Apply(m, es) && Apply(m, es)[es[i].id] == es[i].path
  {
    if i < |es| - 1 {
      var init := es[..|es| - 1];
      assert init[i] == es[i];
      ApplyLastWins(m, init, i);
    }
  }

  /** A key no assignment touches keeps its old value. */
  lemma {:induction false} ApplyUntouched(m: map<Value, string>, es: seq<Entry>, k: Value)
    requires k in m
    requires forall j :: 0 <= j < |es| ==> es[j].id != k
    ensures k in Apply(m, es) && Apply(m, es)[k] == m[k]
  {
    if es != [] {
      ApplyUntouched(m, es[..|es| - 1], k);
    }
  }

  /** Where a run stands: the assignments made so far, or the exception that
      ended it, and the value of `self.choice`. */
  datatype Outcome = Outcome(entries: Result<seq<Entry>>, choice: int)

  /** `done` followed by what `o` goes on to do. */
  function Extend(done: seq<Entry>, o: Outcome): Outcome {
    match o.entries
    case Success(es) => Outcome(Success(done + es), o.choice)
    case Failure(e) => Outcome(Failure(e), o.choice)
  }

  lemma ExtendNothing(o: Outcome)
    ensures Extend([], o) == o
  {
    if o.entries.Success? {
      assert [] + o.entries.value == o.entries.value;
    }
  }

  /** The `download_list` a run hands to the bulk download, or the
      exception that ended it. */
  function DownloadList(o: Outcome): Result<map<Value, string>> {
    match o.entries
    case Success(es) => Success(Apply(map[], es))
    case Failure(e) => Failure(e)
  }

  /** The body of the loop of `download_subs_in_folder` over `files`, with
      `self.choice == choice` on entry: for each file, search, clean, select
      with the current `self.choice`, and assign the save path to the chosen
      subtitle file id. The search service's answer for a file depends on the
      language and on the file at its path (whose hash and size it is sent).
      An exception ends the run. */
  function PlanDownloads(folder: string, language: string, files: seq<string>,
                         search: (string, string) -> seq<Record>, choice: int): (o: Outcome)
    decreases |files|
  {
    if files == [] then Outcome(Success([]), choice)
    else
      var sel := Select(Cleaned(search(language, JoinPath(folder, files[0]))), choice, choice);
      match sel.subtitle
      case Failure(e) => Outcome(Failure(e), sel.choice)
      case Success(subtitle) =>
        CleanedHavePathFields(search(language, JoinPath(folder, files[0])), subtitle);
        var entry := Entry(subtitle["IDSubtitleFile"], SavePath(folder, subtitle, sel.choice));
        Extend([entry], PlanDownloads(folder, language, files[1..], search, sel.choice))
  }

  /** One turn of the loop: a failed selection ends the run with its
      exception, a successful one adds the assignment for the file. */
  lemma PlanDownloadsStep(done: seq<Entry>, folder: string, language: string, files: seq<string>,
                          search: (string, string) -> seq<Record>, choice: int)
    requires files != []
    ensures
      var sel := Select(Cleaned(search(language, JoinPath(folder, files[0]))), choice, choice);
      var o := Extend(done, PlanDownloads(folder, language, files, search, choice));
      && (sel.subtitle.Failure? ==> o == Outcome(Failure(sel.subtitle.error), sel.choice))
      && (sel.subtitle.Success? ==>
            && HasPathFields(sel.subtitle.value)
            && o == Extend(done + [Entry(sel.subtitle.value["IDSubtitleFile"], SavePath(folder, sel.subtitle.value, sel.choice))],
                           PlanDownloads(folder, language, files[1..], search, sel.choice)))
  {
    var sel := Select(Cleaned(search(language, JoinPath(folder, files[0]))), choice, choice);
    if sel.subtitle.Success? {
      CleanedHavePathFields(search(language, JoinPath(folder, files[0])), sel.subtitle.value);
      var rest := PlanDownloads(folder, language, files[1..], search, sel.choice);
      if rest.entries.Success? {
        var entry := Entry(sel.subtitle.value["IDSubtitleFile"], SavePath(folder, sel.subtitle.value, sel.choice));
        assert done + ([entry] + rest.entries.value) == (done + [entry]) + rest.entries.value;
      }
    }
  }

  /** A finished run made one assignment per file, and every file had at
      least one candidate. */
  lemma {:induction false} PlanDownloadsComplete(folder: string, language: string, files: seq<string>,
                                                 search: (string, string) -> seq<Record>, choice: int)
    ensures var o := PlanDownloads(folder, language, files, search, choice);
      o.entries.Success? ==>
        && |o.entries.value| == |files|
        && forall i :: 0 <= i < |files| ==> search(language, JoinPath(folder, files[i])) != []
    decreases |files|
  {
    if files != [] {
      var sel := Select(Cleaned(search(language, JoinPath(folder, files[0]))), choice, choice);
      PlanDownloadsComplete(folder, language, files[1..], search, sel.choice);
      forall i | 1 <= i < |files| ensures files[i] == files[1..][i - 1] { }
    }
  }

  /** The rank a run leaves in `self.choice` never exceeds the requested one:
      starting from a rank of at least 1, the run ends with a rank between 0
      and the requested one, and a run that finishes ends with a rank of at
      least 1. Only a file without candidates brings it to 0, and that ends
      the run. */
  lemma {:induction false} PlanDownloadsRankNeverGrows(folder: string, language: string, files: seq<string>,
                                                       search: (string, string) -> seq<Record>, choice: int)
    requires 1 <= choice
    ensures var o := PlanDownloads(folder, language, files, search, choice);
      && 0 <= o.choice <= choice
      && (o.entries.Success? ==> 1 <= o.choice)
    decreases |files|
  {
    if files != [] {
      var sel := Select(Cleaned(search(language, JoinPath(folder, files[0]))), choice, choice);
      if sel.subtitle.Success? {
        PlanDownloadsRankNeverGrows(folder, language, files[1..], search, sel.choice);
      }
    }
  }

  lemma ExtendExtend(a: seq<Entry>, b: seq<Entry>, o: Outcome)
    ensures Extend(a, Extend(b, o)) == Extend(a + b, o)
  {
    if o.entries.Success? {
      assert a + (b + o.entries.value) == (a + b) + o.entries.value;
    }
  }

  /** A run over `a + b` is the run over `a`, then, if that finished, the run
      over `b` from the rank `a` left. */
  lemma {:induction false} PlanDownloadsAppend(folder: string, language: string, a: seq<string>, b: seq<string>,
                                               search: (string, string) -> seq<Record>, choice: int)
    ensures var p := PlanDownloads(folder, language, a, search, choice);
      PlanDownloads(folder, language, a + b, search, choice)
        == if p.entries.Failure? then p
           else Extend(p.entries.value, PlanDownloads(folder, language, b, search, p.choice))
    decreases |a|
  {
    if a == [] {
      assert a + b == b;
      ExtendNothing(PlanDownloads(folder, language, b, search, choice));
    } else {
      assert (a + b)[0] == a[0] && (a + b)[1..] == a[1..] + b;
      var sel := Select(Cleaned(search(language, JoinPath(folder, a[0]))), choice, choice);
      if sel.subtitle.Success? {
        CleanedHavePathFields(search(language, JoinPath(folder, a[0])), sel.subtitle.value);
        var entry := Entry(sel.subtitle.value["IDSubtitleFile"], SavePath(folder, sel.subtitle.value, sel.choice));
        PlanDownloadsAppend(folder, language, a[1..], b, search, sel.choice);
        var q := PlanDownloads(folder, language, a[1..], search, sel.choice);
        if q.entries.Success? {
          ExtendExtend([entry], q.entries.value, PlanDownloads(folder, language, b, search, q.choice));
        }
      }
    }
  }

  /** Stickiness, file by file: for a run that gets through the first `j`
      files from a requested rank of at least 1, the rank after the first `j`
      files is at least 1 and no larger than the rank after any shorter
      prefix, which is no larger than the requested rank. */
  lemma PlanDownloadsPrefixRanks(folder: string, language: string, files: seq<string>,
                                 search: (string, string) -> seq<Record>, choice: int, i: nat, j: nat)
    requires 1 <= choice && i <= j <= |files|
    requires PlanDownloads(folder, language, files[..j], search, choice).entries.Success?
    ensures var ri := PlanDownloads(folder, language, files[..i], search, choice).choice;
      var rj := PlanDownloads(folder, language, files[..j], search, choice).choice;
      1 <= rj <= ri <= choice
  {
    var p := PlanDownloads(folder, language, files[..i], search, choice);
    assert files[..i] + files[i..j] == files[..j];
    PlanDownloadsAppend(folder, language, files[..i], files[i..j], search, choice);
    PlanDownloadsRankNeverGrows(folder, language, files[..i], search, choice);
    PlanDownloadsRankNeverGrows(folder, language, files[i..j], search, p.choice);
  }

  lemma SplitAt(files: seq<string>, k: nat)
    requires k < |files|
    ensures files[..k] + files[k..] == files
    ensures files[..k] + [files[k]] == files[..k + 1]
    ensures files[k..][0] == files[k]
  {
  }

  /** The first entry of a finished run belongs to the first file, picked
      with the requested rank; its path carries the rank that file leaves. */
  lemma PlanDownloadsFirstEntry(folder: string, language: string, files: seq<string>,
                                search: (string, string) -> seq<Record>, choice: int)
    requires files != []
    requires PlanDownloads(folder, language, files, search, choice).entries.Success?
    ensures var es := PlanDownloads(folder, language, files, search, choice).entries.value;
      var sel := Select(Cleaned(search(language, JoinPath(folder, files[0]))), choice, choice);
      && sel.subtitle.Success?
      && HasPathFields(sel.subtitle.value)
      && sel.choice == PlanDownloads(folder, language, [files[0]], search, choice).choice
      && es != []
      && es[0] == Entry(sel.subtitle.value["IDSubtitleFile"], SavePath(folder, sel.subtitle.value, sel.choice))
  {
    var sel := Select(Cleaned(search(language, JoinPath(folder, files[0]))), choice, choice);
    assert [files[0]][0] == files[0] && [files[0]][1..] == [];
    CleanedHavePathFields(search(language, JoinPath(folder, files[0])), sel.subtitle.value);
  }

  /** Entry `k` of a finished run belongs to file `k`: that file's subtitle is
      selected with the rank the earlier files left, and its save path carries
      the rank left once file `k` is done, which `PlanDownloadsPrefixRanks`
      shows never rises from one file to the next. */
  lemma PlanDownloadsEntryRank(folder: string, language: string, files: seq<string>,
                               search: (string, string) -> seq<Record>, choice: int, k: nat)
    requires k < |files|
    requires PlanDownloads(folder, language, files, search, choice).entries.Success?
    ensures var es := PlanDownloads(folder, language, files, search, choice).entries.value;
      var before := PlanDownloads(folder, language, files[..k], search, choice).choice;
      var sel := Select(Cleaned(search(language, JoinPath(folder, files[k]))), before, before);
      && |es| == |files|
      && sel.subtitle.Success?
      && HasPathFields(sel.subtitle.value)
      && sel.choice == PlanDownloads(folder, language, files[..k + 1], search, choice).choice
      && es[k] == Entry(sel.subtitle.value["IDSubtitleFile"], SavePath(folder, sel.subtitle.value, sel.choice))
  {
    var o := PlanDownloads(folder, language, files, search, choice);
    var p := PlanDownloads(folder, language, files[..k], search, choice);
    var tail := PlanDownloads(folder, language, files[k..], search, p.choice);
    PlanDownloadsComplete(folder, language, files, search, choice);
    SplitAt(files, k);
    PlanDownloadsAppend(folder, language, files[..k], files[k..], search, choice);
    assert p.entries.Success? && tail.entries.Success?;
    assert o.entries.value == p.entries.value + tail.entries.value;
    PlanDownloadsComplete(folder, language, files[..k], search, choice);
    PlanDownloadsFirstEntry(folder, language, files[k..], search, p.choice);
    PlanDownloadsAppend(folder, language, files[..k], [files[k]], search, choice);
    assert o.entries.value[k] == tail.entries.value[0];
  }

  // ---------------------------------------------------------------------------
  // The object
  // ---------------------------------------------------------------------------

  class BatchSubs {
    /** The rank to download; `_get_choice` lowers it when it clamps. */
    var choice: int

    constructor ()
      ensures choice == 1
    {
      choice := 1;
    }

    /** `_clean_up`. */
    method CleanUp(subtitleList: seq<Record>) returns (subtitleListClean: seq<Record>)
      ensures subtitleListClean == Cleaned(subtitleList)
    {
      subtitleListClean := [];
      for i := 0 to |subtitleList|
        invariant |subtitleListClean| == i
        invariant forall j :: 0 <= j < i ==> subtitleListClean[j] == Project(subtitleList[j])
      {
        subtitleListClean := subtitleListClean + [Project(subtitleList[i])];
      }
    }

    /** `_get_choice`. */
    method GetChoice(subtitleList: seq<Record>, number: int) returns (subChoice: Result<Record>)
      modifies this
      ensures Selection(subChoice, choice) == Select(subtitleList, number, old(choice))
    {
      var ranked := Rank(subtitleList);
      if ranked.Failure? {
        return Failure(ranked.error);
      }
      var newlist := ranked.value;
      var index := PyIndex(|newlist|, number - 1);
      if index.Success? {
        subChoice := Success(newlist[index.value]);
      } else {
        choice := |newlist|;
        var last := PyIndex(|newlist|, -1);
        if last.Success? {
          subChoice := Success(newlist[last.value]);
        } else {
          subChoice := Failure(last.error);
        }
      }
    }

    /** `download_subs_in_folder` up to the bulk download: set the rank,
        keep the files of the requested format, and run the selection loop
        over them. Returns the dictionary handed to the bulk download, or the
        exception that ended the run. */
    method DownloadSubsInFolder(folder: string, videoFormat: string, language: string, choice: int,
                                listing: seq<string>, search: (string, string) -> seq<Record>)
      returns (downloadList: Result<map<Value, string>>)
      modifies this
      ensures
        var o := PlanDownloads(folder, language, FilterByFormat(listing, videoFormat), search, choice);
        && this.choice == o.choice
        && downloadList == DownloadList(o)
    {
      this.choice := choice;
      var fileList := FilterByFormat(listing, videoFormat);
      downloadList := SelectForFiles(folder, language, fileList, search);
    }

    /** The loop of `download_subs_in_folder` over the kept files: search,
        clean, select with the current `self.choice`, and assign the save
        path to the chosen subtitle file id. */
    method SelectForFiles(folder: string, language: string, fileList: seq<string>,
                          search: (string, string) -> seq<Record>)
      returns (downloadList: Result<map<Value, string>>)
      modifies this
      ensures
        var o := PlanDownloads(folder, language, fileList, search, old(choice));
        && choice == o.choice
        && downloadList == DownloadList(o)
    {
      var downloads: map<Value, string> := map[];
      ghost var done: seq<Entry> := [];
      ghost var start := choice;
      ExtendNothing(PlanDownloads(folder, language, fileList, search, start));
      assert fileList[0..] == fileList;
      for i := 0 to |fileList|
        invariant downloads == Apply(map[], done)
        invariant Extend(done, PlanDownloads(folder, language, fileList[i..], search, choice))
               == PlanDownloads(folder, language, fileList, search, start)
      {
        var subtitles := search(language, JoinPath(folder, fileList[i]));
        var subtitlesClean := CleanUp(subtitles);
        assert fileList[i..][0] == fileList[i] && fileList[i..][1..] == fileList[i + 1..];
        PlanDownloadsStep(done, folder, language, fileList[i..], search, choice);
        ghost var before := choice;
        var subtitle := GetChoice(subtitlesClean, choice);
        if subtitle.Failure? {
          assert Extend(done, PlanDownloads(folder, language, fileList[i..], search, before))
              == Outcome(Failure(subtitle.error), choice);
          return Failure(subtitle.error);
        }
        CleanedHavePathFields(subtitles, subtitle.value);
        var savePath := SavePath(folder, subtitle.value, choice);
        var entry := Entry(subtitle.value["IDSubtitleFile"], savePath);
        downloads := downloads[entry.id := entry.path];
        assert (done + [entry])[..|done + [entry]| - 1] == done;
        done := done + [entry];
      }
      assert fileList[|fileList|..] == [];
      assert done + [] == done;
      downloadList := Success(downloads);
    }
  }
}
