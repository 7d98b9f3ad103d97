/**
 * The metadata sidecar `comments.json` of one training folder, as the gallery
 * holds it in memory: `{"comments": name -> text, "besprochen": [names],
 * "live": name}`. A sidecar read from disk may lack any of the three keys, so
 * each is optional; the program reads a missing key as its empty default.
 */
module Metadata {
  import opened Wrappers

  datatype Meta = Meta(
    comments: Option<map<string, string>>,
    besprochen: Option<seq<string>>,
    live: Option<string>)

  /** `meta.get("comments", {})` */
  function Comments(m: Meta): map<string, string>
  {
    m.comments.GetOr(map[])
  }

  /** `meta.get("besprochen", [])`: the names discussed so far, in order. */
  function Discussed(m: Meta): seq<string>
  {
    m.besprochen.GetOr([])
  }

  /** The comment shown for a file: `meta.get("comments", {}).get(name, "")`. */
  function CommentOf(m: Meta, name: string): string
  {
    if name in Comments(m) then Comments(m)[name] else ""
  }

  /** The structure a folder without a sidecar starts from. */
  function Fresh(): (m: Meta)
    ensures m.comments.Some? && m.besprochen.Some? && m.live.Some?
    ensures Comments(m) == map[] && Discussed(m) == [] && m.live.value == ""
  {
    Meta(Some(map[]), Some([]), Some(""))
  }

  /**
   * An accepted comment edit: the text is stored under the name (creating the
   * "comments" key if it was missing); discussed list and live pointer stay.
   */
  function SetComment(m: Meta, name: string, text: string): (r: Meta)
    ensures CommentOf(r, name) == text
    ensures forall other :: other != name ==> CommentOf(r, other) == CommentOf(m, other)
    ensures Comments(r).Keys == Comments(m).Keys + {name}
    ensures r.besprochen == m.besprochen && r.live == m.live
  {
    m.(comments := Some(Comments(m)[name := text]))
  }

  /**
   * An accepted "go live": the name becomes the live pointer and is appended
   * to the discussed list unless it is already there.
   */
  function GoLive(m: Meta, name: string): (r: Meta)
    ensures r.live == Some(name)
    ensures name in Discussed(r)
    ensures Discussed(m) <= Discussed(r)
    ensures forall x :: x in Discussed(r) ==> x in Discussed(m) || x == name
    ensures name in Discussed(m) ==> r.besprochen == m.besprochen
    ensures r.comments == m.comments
  {
    var d := Discussed(m);
    if name in d then m.(live := Some(name))
    else m.(live := Some(name), besprochen := Some(d + [name]))
  }

  /** Going live twice on one name is the same as going live once. */
  lemma GoLiveIdempotent(m: Meta, name: string)
    ensures GoLive(GoLive(m, name), name) == GoLive(m, name)
  {
  }

  function Count(s: seq<string>, x: string): nat
  {
    if |s| == 0 then 0 else (if s[0] == x then 1 else 0) + Count(s[1..], x)
  }

  lemma {:induction false} CountAppend(s: seq<string>, y: string, x: string)
    ensures Count(s + [y], x) == Count(s, x) + (if y == x then 1 else 0)
  {
    if |s| > 0 {
      assert (s + [y])[1..] == s[1..] + [y];
      CountAppend(s[1..], y, x);
    }
  }

  lemma {:induction false} CountZero(s: seq<string>, x: string)
    ensures Count(s, x) == 0 <==> x !in s
  {
    if |s| > 0 {
      CountZero(s[1..], x);
      assert s == [s[0]] + s[1..];
    }
  }

  /** No name occurs twice in the discussed list. */
  ghost predicate NoDuplicates(s: seq<string>)
  {
    forall i, j :: 0 <= i < j < |s| ==> s[i] != s[j]
  }

  /**
   * After going live on a name it occurs in the discussed list exactly as
   * often as before, or once if it was absent: a list without duplicates
   * keeps that name exactly once.
   */
  lemma GoLiveCount(m: Meta, name: string)
    ensures Count(Discussed(GoLive(m, name)), name) == if name in Discussed(m) then Count(Discussed(m), name) else 1
  {
    if name !in Discussed(m) {
      CountAppend(Discussed(m), name, name);
      CountZero(Discussed(m), name);
    }
  }

  /** Going live keeps the discussed list free of duplicates. */
  lemma GoLiveNoDuplicates(m: Meta, name: string)
    requires NoDuplicates(Discussed(m))
    ensures NoDuplicates(Discussed(GoLive(m, name)))
  {
  }

  /**
   * The edits the gallery applies to the metadata, with the dialog answer or
   * the server's verdict as part of the edit: a cancelled comment dialog is
   * `None`, a refused go-live has `accepted == false`. Deleting a file does
   * not touch the metadata.
   */
  datatype Edit =
    | CommentEdit(name: string, answer: Option<string>)
    | LiveSwitch(name: string, accepted: bool)
    | Deletion(name: string)

  function Apply(m: Meta, e: Edit): (r: Meta)
    ensures Discussed(m) <= Discussed(r)
  {
    match e
    case CommentEdit(name, answer) => if answer.Some? then SetComment(m, name, answer.value) else m
    case LiveSwitch(name, accepted) => if accepted then GoLive(m, name) else m
    case Deletion(_) => m
  }

  function ApplyAll(m: Meta, es: seq<Edit>): Meta
    decreases |es|
  {
    if |es| == 0 then m else ApplyAll(Apply(m, es[0]), es[1..])
  }

  /** Whatever edits happen, the discussed list only grows: the old one is a prefix of the new one. */
  lemma {:induction false} DiscussedOnlyGrows(m: Meta, es: seq<Edit>)
    ensures Discussed(m) <= Discussed(ApplyAll(m, es))
    decreases |es|
  {
    if |es| > 0 {
      DiscussedOnlyGrows(Apply(m, es[0]), es[1..]);
    }
  }

  /** Whatever edits happen, the discussed list never gains a duplicate. */
  lemma {:induction false} NoDuplicatesKept(m: Meta, es: seq<Edit>)
    requires NoDuplicates(Discussed(m))
    ensures NoDuplicates(Discussed(ApplyAll(m, es)))
    decreases |es|
  {
    if |es| > 0 {
      var m1 := Apply(m, es[0]);
      assert NoDuplicates(Discussed(m1)) by {
        match es[0]
        case LiveSwitch(name, accepted) =>
          if accepted { GoLiveNoDuplicates(m, name); }
        case _ =>
      }
      NoDuplicatesKept(m1, es[1..]);
    }
  }

  /** The live pointer after a run of edits: the name of the last accepted go-live, if any. */
  function LastLive(es: seq<Edit>): Option<string>
  {
    if |es| == 0 then None
    else
      var e := es[|es| - 1];
      if e.LiveSwitch? && e.accepted then Some(e.name) else LastLive(es[..|es| - 1])
  }

  /**
   * Only an accepted go-live moves the live pointer; comment edits, refused
   * go-lives and deletions (even of the live file) leave it where it was.
   */
  lemma {:induction false} LiveIsLastAccepted(m: Meta, es: seq<Edit>)
    ensures ApplyAll(m, es).live == if LastLive(es).Some? then LastLive(es) else m.live
  {
    if |es| > 0 {
      var init, last := es[..|es| - 1], es[|es| - 1];
      ApplyAllSnoc(m, init, last);
      assert es == init + [last];
      LiveIsLastAccepted(m, init);
    }
  }

  lemma {:induction false} ApplyAllSnoc(m: Meta, es: seq<Edit>, e: Edit)
    ensures ApplyAll(m, es + [e]) == Apply(ApplyAll(m, es), e)
    decreases |es|
  {
    if |es| == 0 {
      assert (es + [e])[1..] == [];
    } else {
      assert (es + [e])[1..] == es[1..] + [e];
      ApplyAllSnoc(Apply(m, es[0]), es[1..], e);
    }
  }

  /**
   * After a run of edits, the comment on a name is the answer of the last
   * accepted edit of that name, or the old comment when there is none.
   */
  function LastComment(es: seq<Edit>, name: string): Option<string>
  {
    if |es| == 0 then None
    else
      var e := es[|es| - 1];
      if e.CommentEdit? && e.name == name && e.answer.Some? then e.answer else LastComment(es[..|es| - 1], name)
  }

  lemma {:induction false} CommentIsLastAccepted(m: Meta, es: seq<Edit>, name: string)
    ensures CommentOf(ApplyAll(m, es), name) == if LastComment(es, name).Some? then LastComment(es, name).value else CommentOf(m, name)
  {
    if |es| > 0 {
      var init, last := es[..|es| - 1], es[|es| - 1];
      ApplyAllSnoc(m, init, last);
      assert es == init + [last];
      CommentIsLastAccepted(m, init, name);
    }
  }
}
