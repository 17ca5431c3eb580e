/** The driver of the ROC-curve graphing script: it copies nine settings
    into one argument dictionary, then for every prediction file, in nested
    model / subject / item order, points the dictionary at that file and
    its true-label file and hands it to the plotting routine. The same
    dictionary object is updated in place and reused for every call. */
module RocCurveGraphing {
  import opened Common
  import opened Text

  /** A key of the argument dictionary: one of the settings copied from
      the configuration, or one of the three keys `generate_json` sets. None
      of the setting labels is one of those three names, so the keys of the
      two kinds never clash. */
  datatype Key = Setting(name: string) | PredPath | TruePath | OutputFilePrefixKey

  /** The configuration as read from its file, and the argument dictionary.
      The values are never inspected here; they are carried as text. */
  type Config = map<string, string>
  type Args = map<Key, string>

  const TrueLabelSuffix: string := " true label index.csv"

  /** The settings copied from the configuration, in the order they are copied. */
  const SettingLabels: seq<string> := [
    "line_width", "label_types", "line_colors",
    "font_family", "label_font_size", "title_font_size",
    "save_resolution", "save_format", "output_path"]

  // ---------------------------------------------------------------------
  // Output file prefix
  // ---------------------------------------------------------------------

  /** `true_path.split('/')[-1].replace(" true label index.csv", "")`. */
  function OutputFilePrefix(truePath: string): string {
    ReplaceAll(LastSegment(truePath, '/'), TrueLabelSuffix, "")
  }

  /** Without a `/` the whole path is the last segment. */
  lemma PrefixWithoutSlash(truePath: string)
    requires '/' !in truePath
    ensures OutputFilePrefix(truePath) == ReplaceAll(truePath, TrueLabelSuffix, "")
  {
    LastSegmentWhole(truePath, '/');
  }

  /** The suffix replaced by nothing leaves nothing. */
  lemma ReplaceSuffixAlone()
    ensures ReplaceAll(TrueLabelSuffix, TrueLabelSuffix, "") == ""
  {
    assert TrueLabelSuffix[|TrueLabelSuffix|..] == [];
  }

  /** A true-label file named `<name> true label index.csv` gives the
      prefix `<name>`, when the suffix does not already begin inside the
      name. */
  lemma PrefixOfTrueLabelFile(dir: string, name: string)
    requires '/' !in name
    requires forall i :: 0 <= i < |name| ==> !OccursAt(name + TrueLabelSuffix, TrueLabelSuffix, i)
    ensures OutputFilePrefix(dir + "/" + name + TrueLabelSuffix) == name
  {
    assert '/' !in name + TrueLabelSuffix;
    assert dir + "/" + name + TrueLabelSuffix == dir + "/" + (name + TrueLabelSuffix);
    LastSegmentAfter(dir, '/', name + TrueLabelSuffix);
    ReplacePrefix(name, TrueLabelSuffix, TrueLabelSuffix, "");
    ReplaceSuffixAlone();
    assert name + "" == name;
  }

  // ---------------------------------------------------------------------
  // The settings dictionary
  // ---------------------------------------------------------------------

  /** The dictionary comprehension over `labels`: `KeyError` for the first
      label the configuration lacks. */
  function CopySettings(args: Config, labels: seq<string>): (r: Result<Args, LookupError>)
    ensures r.Ok? <==> forall k :: 0 <= k < |labels| ==> labels[k] in args
    ensures r.Ok? ==> r.value.Keys == set k | 0 <= k < |labels| :: Setting(labels[k])
    ensures r.Ok? ==> forall k :: 0 <= k < |labels| ==> r.value[Setting(labels[k])] == args[labels[k]]
    ensures r.Err? ==>
      exists k :: 0 <= k < |labels| && r.error == KeyError(labels[k]) &&
        labels[k] !in args && forall j :: 0 <= j < k ==> labels[j] in args
  {
    if labels == [] then Ok(map[])
    else if labels[0] !in args then Err(KeyError(labels[0]))
    else
      var rest := CopySettings(args, labels[1..]);
      assert forall k :: 1 <= k < |labels| ==> labels[k] == labels[1..][k - 1];
      match rest
      case Err(e) =>
        assert
          exists k :: 0 <= k < |labels| && e == KeyError(labels[k]) &&
            labels[k] !in args && forall j :: 0 <= j < k ==> labels[j] in args
        by {
          var k :| 0 <= k < |labels[1..]| && e == KeyError(labels[1..][k]) &&
            labels[1..][k] !in args && forall j :: 0 <= j < k ==> labels[1..][j] in args;
          assert labels[k + 1] == labels[1..][k];
        }
        Err(e)
      case Ok(m) =>
        var r := m[Setting(labels[0]) := args[labels[0]]];
        assert r.Keys == set k | 0 <= k < |labels| :: Setting(labels[k]) by {
          forall x | x in r.Keys ensures x in set k | 0 <= k < |labels| :: Setting(labels[k]) {
            if x != Setting(labels[0]) {
              var k :| 0 <= k < |labels[1..]| && Setting(labels[1..][k]) == x;
              assert Setting(labels[k + 1]) == x;
            }
          }
        }
        Ok(r)
  }

  /** The dictionary `run_program` starts from: exactly the nine settings. */
  function InitialJson(args: Config): (r: Result<Args, LookupError>)
    ensures r.Ok? ==> forall key :: key in r.value <==> key.Setting? && key.name in SettingLabels
    ensures r.Ok? ==> forall key :: key in r.value ==> key.name in args && r.value[key] == args[key.name]
    ensures r.Err? ==> r.error.KeyError? && r.error.key in SettingLabels && r.error.key !in args
  {
    CopySettings(args, SettingLabels)
  }

  /** The dictionary after pointing it at a prediction file and a
      true-label file; all its other keys keep their values. */
  function PointedAt(json: Args, predPath: string, truePath: string): Args {
    SetKeys(json, predPath, truePath, OutputFilePrefix(truePath))
  }

  /** The three keys `generate_json` sets, set to the given values. */
  function SetKeys(json: Args, predPath: string, truePath: string, prefix: string): Args {
    json[PredPath := predPath][TruePath := truePath][OutputFilePrefixKey := prefix]
  }

  /** Setting the three keys twice keeps only the second values. */
  lemma SetKeysTwice(json: Args, p1: string, t1: string, x1: string, p2: string, t2: string, x2: string)
    ensures SetKeys(SetKeys(json, p1, t1, x1), p2, t2, x2) == SetKeys(json, p2, t2, x2)
  {
  }

  /** Pointing the dictionary twice is pointing it at the second pair only:
      reusing the dictionary leaves nothing of an earlier file behind. */
  lemma PointedAtTwice(json: Args, p1: string, t1: string, p2: string, t2: string)
    ensures PointedAt(PointedAt(json, p1, t1), p2, t2) == PointedAt(json, p2, t2)
  {
    SetKeysTwice(json, p1, t1, OutputFilePrefix(t1), p2, t2, OutputFilePrefix(t2));
  }

  /** The argument dictionary, shared by every call of the plotting
      routine. */
  class JsonArgs {
    var entries: Args

    constructor (entries: Args)
      ensures this.entries == entries
    {
      this.entries := entries;
    }
  }

  /** `generate_json`: looks up the item-th prediction and true-label
      files under `(model, subject)` and sets the three keys, in that order;
      a failed lookup raises and leaves what was already set. The
      dictionary returned is the one given. */
  method GenerateJson(pred: PathTree, truth: PathTree, model: string, subject: string, item: nat, json: JsonArgs)
    returns (r: Result<JsonArgs, LookupError>)
    modifies json
    ensures var p := Lookup(pred, model, subject, item);
      var t := Lookup(truth, model, subject, item);
      && (p.Err? ==> r == Err(p.error) && json.entries == old(json.entries))
      && (p.Ok? && t.Err? ==> r == Err(t.error) && json.entries == old(json.entries)[PredPath := p.value])
      && (p.Ok? && t.Ok? ==> r == Ok(json) && json.entries == PointedAt(old(json.entries), p.value, t.value))
  {
    var predPath := Lookup(pred, model, subject, item);
    if predPath.Err? {
      return Err(predPath.error);
    }
    json.entries := json.entries[PredPath := predPath.value];
    var truePath := Lookup(truth, model, subject, item);
    if truePath.Err? {
      return Err(truePath.error);
    }
    json.entries := json.entries[TruePath := truePath.value];
    json.entries := json.entries[OutputFilePrefixKey := OutputFilePrefix(truePath.value)];
    return Ok(json);
  }

  // ---------------------------------------------------------------------
  // The nested loop of run_program
  // ---------------------------------------------------------------------

  /** The state of a run: the dictionary, the arguments each call of the
      plotting routine saw, and the lookup error that stopped the run. */
  datatype RocState = RocState(json: Args, calls: seq<Args>, error: Option<LookupError>)

  /** One pass of the innermost loop body: `generate_json` for the item,
      then the plotting call with the dictionary as it now stands. */
  function Step(s: RocState, it: FileAt, pred: PathTree, truth: PathTree): RocState {
    match Lookup(pred, it.model, it.subject, it.item)
    case Err(e) => RocState(s.json, s.calls, Some(e))
    case Ok(p) =>
      match Lookup(truth, it.model, it.subject, it.item)
      case Err(e) => RocState(s.json[PredPath := p], s.calls, Some(e))
      case Ok(t) =>
        var json := PointedAt(s.json, p, t);
        RocState(json, s.calls + [json], None)
  }

  /** Processing the prediction files `items` in order from state `s`; the
      first failed lookup ends the run. */
  function RocFrom(s: RocState, items: seq<FileAt>, pred: PathTree, truth: PathTree): RocState
    decreases |items|
  {
    if s.error.Some? || items == [] then s
    else RocFrom(Step(s, items[0], pred, truth), items[1..], pred, truth)
  }

  /** A run from the settings dictionary `init`, before any call. */
  function RocRun(init: Args, items: seq<FileAt>, pred: PathTree, truth: PathTree): RocState {
    RocFrom(RocState(init, [], None), items, pred, truth)
  }

  /** Running two stretches of items one after the other is running both. */
  lemma {:induction false} RocFromAppend(s: RocState, a: seq<FileAt>, b: seq<FileAt>, pred: PathTree, truth: PathTree)
    ensures RocFrom(s, a + b, pred, truth) == RocFrom(RocFrom(s, a, pred, truth), b, pred, truth)
    decreases |a|
  {
    if s.error.None? && a != [] {
      assert (a + b)[1..] == a[1..] + b;
      RocFromAppend(Step(s, a[0], pred, truth), a[1..], b, pred, truth);
    } else if a == [] {
      assert a + b == b;
    }
  }

  /** One more item extends a run by one step, unless it has stopped. */
  lemma RocRunSnoc(init: Args, items: seq<FileAt>, it: FileAt, pred: PathTree, truth: PathTree)
    ensures var prev := RocRun(init, items, pred, truth);
      RocRun(init, items + [it], pred, truth) == if prev.error.Some? then prev else Step(prev, it, pred, truth)
  {
    RocFromAppend(RocState(init, [], None), items, [it], pred, truth);
  }

  /** Both files of an item can be found. */
  predicate Found(it: FileAt, pred: PathTree, truth: PathTree) {
    Lookup(pred, it.model, it.subject, it.item).Ok? && Lookup(truth, it.model, it.subject, it.item).Ok?
  }

  /** The arguments the plotting routine sees for an item whose files can
      be found: the nine settings and the three keys for that item. */
  function CallFor(init: Args, it: FileAt, pred: PathTree, truth: PathTree): Args
    requires Found(it, pred, truth)
  {
    PointedAt(init, Lookup(pred, it.model, it.subject, it.item).value, Lookup(truth, it.model, it.subject, it.item).value)
  }

  /** The calls of a run over `items` from the settings `init`: one per
      item, in order, up to the first item whose files cannot be found;
      each call sees the settings it started with and the keys of its own
      item only; the dictionary is left as the last call saw it. */
  predicate CallsMatch(init: Args, items: seq<FileAt>, pred: PathTree, truth: PathTree, r: RocState) {
    && |r.calls| <= |items|
    && (r.error.None? <==> forall k :: 0 <= k < |items| ==> Found(items[k], pred, truth))
    && (r.error.None? ==> |r.calls| == |items|)
    && (r.error.Some? ==> |r.calls| < |items| && !Found(items[|r.calls|], pred, truth))
    && (forall k :: 0 <= k < |r.calls| ==> Found(items[k], pred, truth) && r.calls[k] == CallFor(init, items[k], pred, truth))
    && (r.error.None? ==> r.json == if items == [] then init else r.calls[|r.calls| - 1])
  }

  /** The loop body keeps `CallsMatch` as the run goes one item further. */
  lemma CallsMatchStep(init: Args, items: seq<FileAt>, it: FileAt, pred: PathTree, truth: PathTree, prev: RocState)
    requires CallsMatch(init, items, pred, truth, prev)
    ensures CallsMatch(init, items + [it], pred, truth, if prev.error.Some? then prev else Step(prev, it, pred, truth))
  {
    var all := items + [it];
    assert forall k :: 0 <= k < |items| ==> all[k] == items[k];
    if prev.error.None? && Found(it, pred, truth) {
      var p := Lookup(pred, it.model, it.subject, it.item).value;
      var t := Lookup(truth, it.model, it.subject, it.item).value;
      if items != [] {
        var li := items[|items| - 1];
        PointedAtTwice(init, Lookup(pred, li.model, li.subject, li.item).value,
                       Lookup(truth, li.model, li.subject, li.item).value, p, t);
      }
    } else if prev.error.None? {
      assert !Found(all[|prev.calls|], pred, truth);
    } else {
      assert !Found(all[|prev.calls|], pred, truth);
    }
  }

  /** The plotting routine is called once per item, in order, until the
      first item whose files cannot be found; each call sees the settings
      it started with and the keys of its own item only. */
  lemma {:induction false} RocRunCalls(init: Args, items: seq<FileAt>, pred: PathTree, truth: PathTree)
    ensures CallsMatch(init, items, pred, truth, RocRun(init, items, pred, truth))
    decreases |items|
  {
    if items != [] {
      var init' := items[..|items| - 1];
      var it := items[|items| - 1];
      assert items == init' + [it];
      RocRunCalls(init, init', pred, truth);
      RocRunSnoc(init, init', it, pred, truth);
      CallsMatchStep(init, init', it, pred, truth, RocRun(init, init', pred, truth));
    } else {
      assert RocRun(init, items, pred, truth) == RocState(init, [], None);
    }
  }

  /** With well-keyed trees in which every prediction file has its
      true-label file, every prediction file is plotted once, in nested
      model / subject / item order, against the file it names. */
  lemma RocRunComplete(init: Args, pred: PathTree, truth: PathTree)
    requires WellKeyed(pred)
    requires forall it :: it in AllItems(pred) ==> Lookup(truth, it.model, it.subject, it.item).Ok?
    ensures RocRun(init, AllItems(pred), pred, truth).error.None?
    ensures |RocRun(init, AllItems(pred), pred, truth).calls| == |AllItems(pred)| == TreeCount(pred)
    ensures forall k :: 0 <= k < |AllItems(pred)| ==>
      var it := AllItems(pred)[k];
      RocRun(init, AllItems(pred), pred, truth).calls[k]
        == PointedAt(init, it.path, Lookup(truth, it.model, it.subject, it.item).value)
  {
    var items := AllItems(pred);
    forall k | 0 <= k < |items|
      ensures Found(items[k], pred, truth) && Lookup(pred, items[k].model, items[k].subject, items[k].item) == Ok(items[k].path)
    {
      assert items[k] in items;
      AllItemsAt(pred, |pred|, k);
    }
    RocRunCalls(init, items, pred, truth);
    AllItemsCount(pred, |pred|);
    assert pred[..|pred|] == pred;
  }

  /** Every item of the traversal names a file of the tree by its keys and
      position. */
  lemma {:induction false} AllItemsAt(t: PathTree, n: nat, k: nat)
    requires WellKeyed(t) && n <= |t| && k < |TreeItems(t, n)|
    ensures var it := TreeItems(t, n)[k]; Lookup(t, it.model, it.subject, it.item) == Ok(it.path)
  {
    var prev := TreeItems(t, n - 1);
    if k < |prev| {
      AllItemsAt(t, n - 1, k);
    } else {
      ModelItemsAt(t, n - 1, |t[n - 1].subjects|, k - |prev|);
    }
  }

  lemma {:induction false} ModelItemsAt(t: PathTree, i: nat, n: nat, k: nat)
    requires WellKeyed(t) && i < |t| && n <= |t[i].subjects| && k < |ModelItems(t[i], n)|
    ensures var it := ModelItems(t[i], n)[k]; Lookup(t, it.model, it.subject, it.item) == Ok(it.path)
  {
    var prev := ModelItems(t[i], n - 1);
    if k < |prev| {
      ModelItemsAt(t, i, n - 1, k);
    } else {
      LookupAt(t, i, n - 1, k - |prev|);
    }
  }

  /** A run that has stopped on a prefix of `items` stops there on all of
      `items`. */
  lemma RocFromStopped(s: RocState, done: seq<FileAt>, items: seq<FileAt>, pred: PathTree, truth: PathTree)
    requires done <= items
    requires RocFrom(s, done, pred, truth).error.Some?
    ensures RocFrom(s, items, pred, truth) == RocFrom(s, done, pred, truth)
  {
    assert items == done + items[|done|..];
    RocFromAppend(s, done, items[|done|..], pred, truth);
  }

  /** The innermost loop of `run_program`, over the files of one subject. */
  method PlotSubject(pred: PathTree, truth: PathTree, model: string, e: SubjectFiles, json: JsonArgs, calls0: seq<Args>)
    returns (calls: seq<Args>, error: Option<LookupError>)
    modifies json
    ensures RocFrom(RocState(old(json.entries), calls0, None), SubjectItems(model, e), pred, truth)
      == RocState(json.entries, calls, error)
  {
    ghost var items := SubjectItems(model, e);
    ghost var target := RocFrom(RocState(json.entries, calls0, None), items, pred, truth);
    calls := calls0;
    var item := 0;
    while item < |e.files|
      invariant 0 <= item <= |e.files|
      invariant RocFrom(RocState(json.entries, calls, None), items[item..], pred, truth) == target
    {
      assert items[item] == FileAt(model, e.subject, item, e.files[item]);
      assert items[item..][1..] == items[item + 1..];
      var r := GenerateJson(pred, truth, model, e.subject, item, json);
      if r.Err? {
        return calls, Some(r.error);
      }
      calls := calls + [json.entries];
      item := item + 1;
    }
    return calls, None;
  }

  /** The middle loop of `run_program`, over the subjects of one model. */
  method PlotModel(pred: PathTree, truth: PathTree, m: ModelFiles, json: JsonArgs, calls0: seq<Args>)
    returns (calls: seq<Args>, error: Option<LookupError>)
    modifies json
    ensures RocFrom(RocState(old(json.entries), calls0, None), ModelItems(m, |m.subjects|), pred, truth)
      == RocState(json.entries, calls, error)
  {
    ghost var s0 := RocState(json.entries, calls0, None);
    calls := calls0;
    var j := 0;
    while j < |m.subjects|
      invariant 0 <= j <= |m.subjects|
      invariant RocFrom(s0, ModelItems(m, j), pred, truth) == RocState(json.entries, calls, None)
    {
      RocFromAppend(s0, ModelItems(m, j), SubjectItems(m.model, m.subjects[j]), pred, truth);
      calls, error := PlotSubject(pred, truth, m.model, m.subjects[j], json, calls);
      if error.Some? {
        ModelItemsPrefix(m, j + 1, |m.subjects|);
        RocFromStopped(s0, ModelItems(m, j + 1), ModelItems(m, |m.subjects|), pred, truth);
        return;
      }
      j := j + 1;
    }
    return calls, None;
  }

  /** `run_program`, with `find_directories` an input that maps the data
      path to the prediction and true-label path trees, and `roc_curve.main`
      recorded as the dictionary it was given. `args["data_path"]` is read
      first, so its absence is the first `KeyError`. */
  method RunProgram(args: Config, find: string -> (PathTree, PathTree))
    returns (calls: seq<Args>, error: Option<LookupError>)
    ensures "data_path" !in args ==> calls == [] && error == Some(KeyError("data_path"))
    ensures "data_path" in args ==>
      var (pred, truth) := find(args["data_path"]);
      match InitialJson(args)
      case Err(e) => calls == [] && error == Some(e)
      case Ok(init) =>
        var r := RocRun(init, AllItems(pred), pred, truth);
        calls == r.calls && error == r.error
  {
    if "data_path" !in args {
      return [], Some(KeyError("data_path"));
    }
    var (pred, truth) := find(args["data_path"]);
    var init := InitialJson(args);
    if init.Err? {
      return [], Some(init.error);
    }
    var json := new JsonArgs(init.value);
    ghost var s0 := RocState(init.value, [], None);
    calls := [];
    var i := 0;
    while i < |pred|
      invariant 0 <= i <= |pred|
      invariant RocFrom(s0, TreeItems(pred, i), pred, truth) == RocState(json.entries, calls, None)
    {
      RocFromAppend(s0, TreeItems(pred, i), ModelItems(pred[i], |pred[i].subjects|), pred, truth);
      calls, error := PlotModel(pred, truth, pred[i], json, calls);
      if error.Some? {
        TreeItemsPrefix(pred, i + 1, |pred|);
        RocFromStopped(s0, TreeItems(pred, i + 1), AllItems(pred), pred, truth);
        return;
      }
      i := i + 1;
    }
    return calls, None;
  }
}
