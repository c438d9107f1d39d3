/** Reading composite text keys back into their parts. */
module Keys {

  /** Text split at the last separator: the tail holds none, so both parts are determined. */
  lemma SplitAtLast(head: string, tail: string, head': string, tail': string, sep: char)
    requires sep !in tail && sep !in tail'
    requires head + [sep] + tail == head' + [sep] + tail'
    ensures head == head' && tail == tail'
  {
    var k := head + [sep] + tail;
    assert k[|head|] == sep && k[|head'|] == sep;
    assert forall i :: |head| < i < |k| ==> k[i] == tail[i - |head| - 1];
    assert forall i :: |head'| < i < |k| ==> k[i] == tail'[i - |head'| - 1];
    assert |head| == |head'|;
    assert k[..|head|] == head && k[..|head'|] == head';
    assert k[|head| + 1..] == tail && k[|head'| + 1..] == tail';
  }

  /** Text split at the first separator: the head holds none, so both parts are determined. */
  lemma SplitAtFirst(head: string, tail: string, head': string, tail': string, sep: char)
    requires sep !in head && sep !in head'
    requires head + [sep] + tail == head' + [sep] + tail'
    ensures head == head' && tail == tail'
  {
    var k := head + [sep] + tail;
    assert k[|head|] == sep && k[|head'|] == sep;
    assert forall i :: 0 <= i < |head| ==> k[i] == head[i];
    assert forall i :: 0 <= i < |head'| ==> k[i] == head'[i];
    assert |head| == |head'|;
    assert k[..|head|] == head && k[..|head'|] == head';
    assert k[|head| + 1..] == tail && k[|head'| + 1..] == tail';
  }
}
