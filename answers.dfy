/** What a successful answer turns into on screen: the text of a pod, the entries a
    result contributes, and the order in which they land in the answer list. */
module Answers {
  import opened WolframAlpha

  /** One row of the answer list: a pod's title and its content text. */
  datatype Entry = Entry(title: string, content: string)

  /** The text an element contributes to its pod's content. */
  function ElementText(e: Element): string {
    match e
    case PlainText(t) => t
    case Other => ""
  }

  /** The texts of the plain-text elements of `es`, in order, with no delimiter. */
  function PlainTextOf(es: seq<Element>): string {
    if es == [] then "" else ElementText(es[0]) + PlainTextOf(es[1..])
  }

  /** The plain text of every sub-pod, one sub-pod after the other. */
  function SubpodsText(sps: seq<SubPod>): string {
    if sps == [] then "" else PlainTextOf(sps[0].contents) + SubpodsText(sps[1..])
  }

  /** The content shown for a pod. */
  function PodContent(p: Pod): string {
    SubpodsText(p.subpods)
  }

  function ToEntry(p: Pod): Entry {
    Entry(p.title, PodContent(p))
  }

  /** The entries a successful result contributes, in response order: one per pod
      not flagged as an error. */
  function EntriesOf(ps: seq<Pod>): seq<Entry> {
    if ps == [] then []
    else (if ps[0].isError then [] else [ToEntry(ps[0])]) + EntriesOf(ps[1..])
  }

  /** The number of pods not flagged as an error. */
  function NonErrorCount(ps: seq<Pod>): nat {
    if ps == [] then 0 else (if ps[0].isError then 0 else 1) + NonErrorCount(ps[1..])
  }

  /** All content elements of the sub-pods, in order; the reference reading of
      "every element across all sub-pods". */
  function Flatten(sps: seq<SubPod>): seq<Element> {
    if sps == [] then [] else sps[0].contents + Flatten(sps[1..])
  }

  function Reversed<T>(s: seq<T>): seq<T> {
    if s == [] then [] else [s[|s| - 1]] + Reversed(s[..|s| - 1])
  }

  /** Builds a pod's content the way the screen does: a string builder appended to
      in a loop over the sub-pods and, inside it, a loop over their elements. */
  method BuildContent(pod: Pod) returns (content: string)
    ensures content == PodContent(pod)
  {
    content := "";
    var i := 0;
    while i < |pod.subpods|
      invariant 0 <= i <= |pod.subpods|
      invariant content == SubpodsText(pod.subpods[..i])
    {
      var elements := pod.subpods[i].contents;
      var j := 0;
      while j < |elements|
        invariant 0 <= j <= |elements|
        invariant content == SubpodsText(pod.subpods[..i]) + PlainTextOf(elements[..j])
      {
        if elements[j].PlainText? {
          content := content + elements[j].text;
        }
        PlainTextAppend(elements[..j], [elements[j]]);
        assert elements[..j + 1] == elements[..j] + [elements[j]];
        j := j + 1;
      }
      assert elements[..j] == elements;
      SubpodsTextAppend(pod.subpods[..i], [pod.subpods[i]]);
      assert pod.subpods[..i + 1] == pod.subpods[..i] + [pod.subpods[i]];
      i := i + 1;
    }
    assert pod.subpods[..i] == pod.subpods;
  }

  // ---------------------------------------------------------------------------
  // Content of a pod

  /** Plain text is a homomorphism: the text of two runs of elements is the text
      of the first followed by the text of the second, with nothing in between. */
  lemma {:induction false} PlainTextAppend(a: seq<Element>, b: seq<Element>)
    ensures PlainTextOf(a + b) == PlainTextOf(a) + PlainTextOf(b)
  {
    if a != [] {
      assert (a + b)[0] == a[0];
      assert (a + b)[1..] == a[1..] + b;
      PlainTextAppend(a[1..], b);
    } else {
      assert a + b == b;
    }
  }

  /** A non-plain-text element contributes nothing, wherever it stands. */
  lemma {:induction false} OtherContributesNothing(a: seq<Element>, b: seq<Element>)
    ensures PlainTextOf(a + [Other] + b) == PlainTextOf(a + b)
  {
    PlainTextAppend(a + [Other], b);
    PlainTextAppend(a, [Other]);
    PlainTextAppend(a, b);
  }

  /** Elements none of which is plain text yield the empty string. */
  lemma {:induction false} NoPlainTextIsEmpty(es: seq<Element>)
    requires forall k :: 0 <= k < |es| ==> !es[k].PlainText?
    ensures PlainTextOf(es) == ""
  {
    if es != [] {
      NoPlainTextIsEmpty(es[1..]);
    }
  }

  lemma {:induction false} SubpodsTextAppend(a: seq<SubPod>, b: seq<SubPod>)
    ensures SubpodsText(a + b) == SubpodsText(a) + SubpodsText(b)
  {
    if a != [] {
      assert (a + b)[0] == a[0];
      assert (a + b)[1..] == a[1..] + b;
      SubpodsTextAppend(a[1..], b);
    } else {
      assert a + b == b;
    }
  }

  /** A pod's content is the plain text of all of its elements taken across its
      sub-pods in order: sub-pod boundaries add no delimiter. */
  lemma {:induction false} PodContentIsFlatText(p: Pod)
    ensures PodContent(p) == PlainTextOf(Flatten(p.subpods))
  {
    SubpodsTextIsFlatText(p.subpods);
  }

  lemma {:induction false} SubpodsTextIsFlatText(sps: seq<SubPod>)
    ensures SubpodsText(sps) == PlainTextOf(Flatten(sps))
  {
    if sps != [] {
      SubpodsTextIsFlatText(sps[1..]);
      PlainTextAppend(sps[0].contents, Flatten(sps[1..]));
    }
  }

  /** A pod without any plain-text element has empty content. */
  lemma {:induction false} NoPlainTextPodIsEmpty(p: Pod)
    requires forall i, k :: 0 <= i < |p.subpods| && 0 <= k < |p.subpods[i].contents| ==>
               !p.subpods[i].contents[k].PlainText?
    ensures PodContent(p) == ""
  {
    NoPlainTextSubpodsEmpty(p.subpods);
  }

  lemma {:induction false} NoPlainTextSubpodsEmpty(sps: seq<SubPod>)
    requires forall i, k :: 0 <= i < |sps| && 0 <= k < |sps[i].contents| ==>
               !sps[i].contents[k].PlainText?
    ensures SubpodsText(sps) == ""
  {
    if sps != [] {
      NoPlainTextIsEmpty(sps[0].contents);
      NoPlainTextSubpodsEmpty(sps[1..]);
    }
  }

  // ---------------------------------------------------------------------------
  // Entries of a result

  lemma {:induction false} EntriesAppend(a: seq<Pod>, b: seq<Pod>)
    ensures EntriesOf(a + b) == EntriesOf(a) + EntriesOf(b)
  {
    if a != [] {
      assert (a + b)[0] == a[0];
      assert (a + b)[1..] == a[1..] + b;
      EntriesAppend(a[1..], b);
    } else {
      assert a + b == b;
    }
  }

  /** A pod flagged as an error adds no entry and leaves the entries of the pods
      around it in their order. */
  lemma {:induction false} ErrorPodAddsNothing(a: seq<Pod>, p: Pod, b: seq<Pod>)
    requires p.isError
    ensures EntriesOf(a + [p] + b) == EntriesOf(a) + EntriesOf(b)
  {
    EntriesAppend(a + [p], b);
    EntriesAppend(a, [p]);
  }

  /** One entry per pod not flagged as an error; so every pod contributes exactly
      when none of them is flagged. */
  lemma {:induction false} EntriesCount(ps: seq<Pod>)
    ensures |EntriesOf(ps)| == NonErrorCount(ps) <= |ps|
    ensures |EntriesOf(ps)| == |ps| <==> forall i :: 0 <= i < |ps| ==> !ps[i].isError
  {
    if ps != [] {
      EntriesCount(ps[1..]);
      assert forall i :: 0 <= i < |ps[1..]| ==> ps[1..][i] == ps[i + 1];
      if ps[0].isError {
        assert |EntriesOf(ps)| < |ps|;
      }
    }
  }

  /** Without error pods, the k-th entry is the k-th pod's title and content. */
  lemma {:induction false} EntriesWithoutErrors(ps: seq<Pod>)
    requires forall i :: 0 <= i < |ps| ==> !ps[i].isError
    ensures |EntriesOf(ps)| == |ps|
    ensures forall k :: 0 <= k < |ps| ==> EntriesOf(ps)[k] == Entry(ps[k].title, PodContent(ps[k]))
  {
    if ps != [] {
      assert forall i :: 0 <= i < |ps[1..]| ==> ps[1..][i] == ps[i + 1];
      EntriesWithoutErrors(ps[1..]);
    }
  }

  // ---------------------------------------------------------------------------
  // Order in the answer list

  lemma {:induction false} ReversedAt<T>(s: seq<T>, k: nat)
    requires k < |s|
    ensures |Reversed(s)| == |s|
    ensures Reversed(s)[k] == s[|s| - 1 - k]
  {
    if k > 0 {
      ReversedAt(s[..|s| - 1], k - 1);
    } else if |s| > 1 {
      ReversedAt(s[..|s| - 1], 0);
    } else {
      assert Reversed(s[..0]) == [];
    }
  }

  /** Inserting each new entry at index 0, in response order, is the same as putting
      the reversed entries on top of the old list: the k-th row from the top is the
      k-th entry from the end of the response, and the old rows follow unchanged. */
  lemma {:induction false} NewestOnTop(store: seq<Entry>, ps: seq<Pod>)
    ensures var added := EntriesOf(ps);
            var list := Reversed(added) + store;
            && |list| == |added| + |store|
            && (forall k :: 0 <= k < |added| ==> list[k] == added[|added| - 1 - k])
            && (forall j :: 0 <= j < |store| ==> list[|added| + j] == store[j])
  {
    var added := EntriesOf(ps);
    if added != [] {
      ReversedAt(added, 0);
    } else {
      assert Reversed(added) == [];
    }
    forall k | 0 <= k < |added|
      ensures (Reversed(added) + store)[k] == added[|added| - 1 - k]
    {
      ReversedAt(added, k);
    }
  }
}
