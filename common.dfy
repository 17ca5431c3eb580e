/** Shared value types: the error-carrying result used for the source's
    exceptions, and the ordered two-level "model / subject / files"
    dictionaries that the result-processing scripts iterate over. */
module Common {

  datatype Option<+T> = None | Some(value: T)

  /** An operation that either returns a value or raises. */
  datatype Result<+T, +E> = Ok(value: T) | Err(error: E)

  /** One `test_subject -> [file, ...]` entry of a path dictionary. Python
      dictionaries iterate in insertion order, so the dictionary is a
      sequence of entries. */
  datatype SubjectFiles = SubjectFiles(subject: string, files: seq<string>)

  /** One `model -> {test_subject -> [file, ...]}` entry. */
  datatype ModelFiles = ModelFiles(model: string, subjects: seq<SubjectFiles>)

  /** A nested path dictionary as returned by the path getter. */
  type PathTree = seq<ModelFiles>

  /** The position of one file in a path tree: `tree[model][subject][item]`. */
  datatype FileAt = FileAt(model: string, subject: string, item: nat, path: string)

  /** The files of one subject entry, each with its position, in list order. */
  function SubjectItems(model: string, e: SubjectFiles): (r: seq<FileAt>)
    ensures |r| == |e.files|
    ensures forall k :: 0 <= k < |r| ==> r[k] == FileAt(model, e.subject, k, e.files[k])
  {
    seq(|e.files|, k requires 0 <= k < |e.files| => FileAt(model, e.subject, k, e.files[k]))
  }

  /** The files of a model entry's first `n` subjects, in nested order. */
  function ModelItems(m: ModelFiles, n: nat): seq<FileAt>
    requires n <= |m.subjects|
  {
    if n == 0 then [] else ModelItems(m, n - 1) + SubjectItems(m.model, m.subjects[n - 1])
  }

  /** Every file of the first `n` models, in nested model / subject / file order. */
  function TreeItems(t: PathTree, n: nat): seq<FileAt>
    requires n <= |t|
  {
    if n == 0 then [] else TreeItems(t, n - 1) + ModelItems(t[n - 1], |t[n - 1].subjects|)
  }

  /** Every file of the tree, in the order the scripts' nested loops visit them. */
  function AllItems(t: PathTree): seq<FileAt> {
    TreeItems(t, |t|)
  }

  /** The number of files of a subject list. */
  function SubjectsCount(ss: seq<SubjectFiles>): nat {
    if ss == [] then 0 else SubjectsCount(ss[..|ss| - 1]) + |ss[|ss| - 1].files|
  }

  /** The number of files of a tree. */
  function TreeCount(t: PathTree): nat {
    if t == [] then 0 else TreeCount(t[..|t| - 1]) + SubjectsCount(t[|t| - 1].subjects)
  }

  lemma {:induction false} ModelItemsCount(m: ModelFiles, n: nat)
    requires n <= |m.subjects|
    ensures |ModelItems(m, n)| == SubjectsCount(m.subjects[..n])
  {
    if n > 0 {
      ModelItemsCount(m, n - 1);
      assert m.subjects[..n][..n - 1] == m.subjects[..n - 1];
    }
  }

  /** The nested traversal visits exactly as many files as the tree holds. */
  lemma {:induction false} AllItemsCount(t: PathTree, n: nat)
    requires n <= |t|
    ensures |TreeItems(t, n)| == TreeCount(t[..n])
  {
    if n > 0 {
      AllItemsCount(t, n - 1);
      ModelItemsCount(t[n - 1], |t[n - 1].subjects|);
      assert t[..n][..n - 1] == t[..n - 1];
      assert t[n - 1].subjects[..|t[n - 1].subjects|] == t[n - 1].subjects;
    }
  }

  /** The files visited after `i` models begin those visited after `n`. */
  lemma {:induction false} TreeItemsPrefix(t: PathTree, i: nat, n: nat)
    requires i <= n <= |t|
    ensures TreeItems(t, i) <= TreeItems(t, n)
    decreases n
  {
    if i < n {
      TreeItemsPrefix(t, i, n - 1);
    }
  }

  /** The files of the first `j` subjects begin those of the first `n`. */
  lemma {:induction false} ModelItemsPrefix(m: ModelFiles, j: nat, n: nat)
    requires j <= n <= |m.subjects|
    ensures ModelItems(m, j) <= ModelItems(m, n)
    decreases n
  {
    if j < n {
      ModelItemsPrefix(m, j, n - 1);
    }
  }

  /** The position of the first occurrence of `x` in `xs`, as Python's
      `list.index` finds it, or `None` where it raises. */
  function FirstIndex<T(==)>(xs: seq<T>, x: T): (r: Option<nat>)
    ensures r.Some? ==> r.value < |xs| && xs[r.value] == x && x !in xs[..r.value]
    ensures r.None? <==> x !in xs
  {
    if xs == [] then None
    else if xs[0] == x then Some(0)
    else
      match FirstIndex(xs[1..], x)
      case None => None
      case Some(i) =>
        assert xs[..i + 1] == [xs[0]] + xs[1..][..i];
        Some(i + 1)
  }

  predicate Distinct<T(==)>(xs: seq<T>) {
    forall i, j :: 0 <= i < j < |xs| ==> xs[i] != xs[j]
  }

  /** The keys of a path tree, in iteration order. */
  function ModelKeys(t: PathTree): (r: seq<string>)
    ensures |r| == |t| && forall i :: 0 <= i < |t| ==> r[i] == t[i].model
  {
    seq(|t|, i requires 0 <= i < |t| => t[i].model)
  }

  /** The keys of a model entry, in iteration order. */
  function SubjectKeys(ss: seq<SubjectFiles>): (r: seq<string>)
    ensures |r| == |ss| && forall i :: 0 <= i < |ss| ==> r[i] == ss[i].subject
  {
    seq(|ss|, i requires 0 <= i < |ss| => ss[i].subject)
  }

  /** A path tree that is a genuine nested dictionary: no key twice at
      either level. */
  predicate WellKeyed(t: PathTree) {
    Distinct(ModelKeys(t)) && forall i :: 0 <= i < |t| ==> Distinct(SubjectKeys(t[i].subjects))
  }

  /** The `KeyError` or `IndexError` of a failed lookup. */
  datatype LookupError = KeyError(key: string) | IndexError(index: nat)

  /** `t[model]`: the entry of the first model with that key. */
  function FindModel(t: PathTree, model: string): Option<ModelFiles> {
    if t == [] then None
    else if t[0].model == model then Some(t[0])
    else FindModel(t[1..], model)
  }

  /** `d[subject]` for the subject dictionary of a model. */
  function FindSubject(ss: seq<SubjectFiles>, subject: string): Option<SubjectFiles> {
    if ss == [] then None
    else if ss[0].subject == subject then Some(ss[0])
    else FindSubject(ss[1..], subject)
  }

  /** `t[model][subject][item]`, or the `KeyError` / `IndexError` it raises. */
  function Lookup(t: PathTree, model: string, subject: string, item: nat): Result<string, LookupError> {
    match FindModel(t, model)
    case None => Err(KeyError(model))
    case Some(m) =>
      match FindSubject(m.subjects, subject)
      case None => Err(KeyError(subject))
      case Some(e) => if item < |e.files| then Ok(e.files[item]) else Err(IndexError(item))
  }

  /** Without repeated keys, a model is found under its own key. */
  lemma {:induction false} FindModelAt(t: PathTree, i: nat)
    requires Distinct(ModelKeys(t)) && i < |t|
    ensures FindModel(t, t[i].model) == Some(t[i])
  {
    if i > 0 {
      assert ModelKeys(t)[0] != ModelKeys(t)[i];
      assert Distinct(ModelKeys(t[1..])) by {
        forall a, b | 0 <= a < b < |t| - 1 ensures t[1..][a].model != t[1..][b].model {
          assert ModelKeys(t)[a + 1] != ModelKeys(t)[b + 1];
        }
      }
      FindModelAt(t[1..], i - 1);
    }
  }

  /** Without repeated keys, a subject is found under its own key. */
  lemma {:induction false} FindSubjectAt(ss: seq<SubjectFiles>, j: nat)
    requires Distinct(SubjectKeys(ss)) && j < |ss|
    ensures FindSubject(ss, ss[j].subject) == Some(ss[j])
  {
    if j > 0 {
      assert SubjectKeys(ss)[0] != SubjectKeys(ss)[j];
      assert Distinct(SubjectKeys(ss[1..])) by {
        forall a, b | 0 <= a < b < |ss| - 1 ensures ss[1..][a].subject != ss[1..][b].subject {
          assert SubjectKeys(ss)[a + 1] != SubjectKeys(ss)[b + 1];
        }
      }
      FindSubjectAt(ss[1..], j - 1);
    }
  }

  /** In a well-keyed tree, looking up the keys of a file gives that file. */
  lemma LookupAt(t: PathTree, i: nat, j: nat, k: nat)
    requires WellKeyed(t) && i < |t| && j < |t[i].subjects| && k < |t[i].subjects[j].files|
    ensures Lookup(t, t[i].model, t[i].subjects[j].subject, k) == Ok(t[i].subjects[j].files[k])
  {
    FindModelAt(t, i);
    FindSubjectAt(t[i].subjects, j);
  }
}
