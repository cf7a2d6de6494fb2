/**
 * The name save_report (Diary_Library.py) gives the finished report: next
 * to the workbook it was read from, `<stem>-<tag><suffix>`, with stem and
 * suffix as pathlib's PurePath defines them.
 */
module Paths {
  import opened Results

  /** A file path: the folder it sits in, kept opaque, and its final component. */
  datatype Path = Path(parent: string, name: string)

  /** str.rfind('.'): the position of the last dot of `name`, if it has one. */
  function LastDot(name: string): (r: Option<nat>)
    ensures r.Some? ==>
      (r.value < |name| && name[r.value] == '.' && forall i :: r.value < i < |name| ==> name[i] != '.')
    ensures r.None? ==> forall i :: 0 <= i < |name| ==> name[i] != '.'
  {
    if name == [] then None
    else if name[|name| - 1] == '.' then Some(|name| - 1)
    else LastDot(name[..|name| - 1])
  }

  /** PurePath.suffix: from the last dot on, or "" when that dot leads, trails or is missing. */
  function Suffix(name: string): string
  {
    match LastDot(name)
    case Some(i) => if 0 < i < |name| - 1 then name[i..] else ""
    case None => ""
  }

  /** PurePath.stem: the name without its suffix. */
  function Stem(name: string): string
  {
    match LastDot(name)
    case Some(i) => if 0 < i < |name| - 1 then name[..i] else name
    case None => name
  }

  /** Stem and suffix split the name: put back together they give it unchanged. */
  lemma StemSuffix(name: string)
    ensures Stem(name) + Suffix(name) == name
  {
    match LastDot(name)
    case Some(i) =>
      if 0 < i < |name| - 1 {
        assert name[..i] + name[i..] == name;
      }
    case None =>
  }

  /** A suffix that is not empty is a dot followed by at least one character, none of them a dot. */
  lemma SuffixShape(name: string)
    requires Suffix(name) != ""
    ensures var e := Suffix(name);
      |e| >= 2 && e[0] == '.' && forall i :: 1 <= i < |e| ==> e[i] != '.'
  {
  }

  /** The path save_report writes to: the source's folder, `<stem>-<tag><suffix>`. */
  function OutputPath(source: Path, tag: string): (out: Path)
    ensures out.parent == source.parent
  {
    Path(source.parent, Stem(source.name) + "-" + tag + Suffix(source.name))
  }

  lemma {:induction false} LastDotAfter(a: string, b: string)
    requires forall i :: 0 <= i < |b| ==> b[i] != '.'
    ensures LastDot(a + ['.'] + b) == Some(|a|)
    decreases |b|
  {
    if b != [] {
      var b' := b[..|b| - 1];
      assert (a + ['.'] + b)[..|a + ['.'] + b| - 1] == a + ['.'] + b';
      LastDotAfter(a, b');
    }
  }

  /**
   * The report keeps the workbook's suffix and its stem is the source stem,
   * a hyphen and the tag (for a tag without dots and a source that has
   * a suffix).
   */
  lemma OutputKeepsSuffix(source: Path, tag: string)
    requires Suffix(source.name) != ""
    requires forall i :: 0 <= i < |tag| ==> tag[i] != '.'
    ensures Suffix(OutputPath(source, tag).name) == Suffix(source.name)
    ensures Stem(OutputPath(source, tag).name) == Stem(source.name) + "-" + tag
  {
    var stem, e := Stem(source.name), Suffix(source.name);
    SuffixShape(source.name);
    var head := stem + "-" + tag;
    var out := OutputPath(source, tag).name;
    assert out == head + ['.'] + e[1..];
    LastDotAfter(head, e[1..]);
    assert out[|head|..] == e;
    assert out[..|head|] == head;
  }

  /** The report is never written over its workbook: its name is longer by the hyphen and the tag. */
  lemma OutputIsAnotherFile(source: Path, tag: string)
    ensures |OutputPath(source, tag).name| == |source.name| + 1 + |tag|
    ensures OutputPath(source, tag) != source
  {
    StemSuffix(source.name);
  }
}
