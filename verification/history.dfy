/**
  The word-stream buffer of game mode "6": `updateHistory`, which keeps the
  five newest words newest-first, and `renderHistory`, which turns the buffer
  into display items that fade with age.
 */
module WordHistory {

  /** The buffer keeps at most this many words. */
  const Cap: nat := 5

  /** Opacity and font size of older items, in tenths (of one, and of a rem). */
  const OpacityBase: int := 6
  const OpacityStep: int := 1
  const FontBase: int := 25
  const FontStep: int := 3

  function Min(a: int, b: int): (m: int) {
    if a <= b then a else b
  }

  /** `updateHistory` for a word already drawn: put it in front, then drop
      the last entry once the buffer is longer than the cap. */
  function Push(history: seq<string>, w: string): (h: seq<string>)
    ensures |h| > 0 && h[0] == w
    ensures h[1..] <= history
    ensures |h| == if |history| < Cap then |history| + 1 else |history|
    ensures |history| <= Cap ==> h == [w] + history[..Min(|history|, Cap - 1)]
  {
    var pushed := [w] + history;
    if |pushed| > Cap then pushed[..|pushed| - 1] else pushed
  }

  /** Pushing the words one after another, first word first. */
  function Feed(history: seq<string>, words: seq<string>): (h: seq<string>)
    decreases |words|
  {
    if words == [] then history else Feed(Push(history, words[0]), words[1..])
  }

  function Reverse(s: seq<string>): (r: seq<string>)
    ensures |r| == |s|
    ensures forall i :: 0 <= i < |s| ==> r[i] == s[|s| - 1 - i]
  {
    if s == [] then [] else Reverse(s[1..]) + [s[0]]
  }

  /** The buffer never grows past the cap. */
  lemma {:induction false} FeedWithinCap(history: seq<string>, words: seq<string>)
    requires |history| <= Cap
    ensures |Feed(history, words)| <= Cap
    decreases |words|
  {
    if words != [] {
      FeedWithinCap(Push(history, words[0]), words[1..]);
    }
  }

  lemma PrefixUnderConcat(a: seq<string>, p: seq<string>, q: seq<string>, m: nat)
    requires p <= q && m <= |a| + |p|
    ensures (a + p)[..m] == (a + q)[..m]
  {
    assert forall k :: 0 <= k < m ==> (a + p)[k] == (a + q)[k];
  }

  /** After pushing `words` the buffer holds the newest words, newest first,
      followed by what survives of the old buffer, cut at the cap: the oldest
      entries are the ones evicted. */
  lemma {:induction false} FeedKeepsNewest(history: seq<string>, words: seq<string>)
    requires |history| <= Cap
    ensures Feed(history, words) == (Reverse(words) + history)[..Min(|words| + |history|, Cap)]
    decreases |words|
  {
    if words == [] {
      assert Reverse(words) + history == history;
    } else {
      var w, rest := words[0], words[1..];
      var h' := Push(history, w);
      FeedKeepsNewest(h', rest);
      var m := Min(|words| + |history|, Cap);
      assert Reverse(words) == Reverse(rest) + [w];
      assert Reverse(words) + history == Reverse(rest) + ([w] + history);
      assert h' <= [w] + history;
      PrefixUnderConcat(Reverse(rest), h', [w] + history, m);
    }
  }

  /** Starting from an empty buffer, the buffer is the last `Cap` words
      generated, newest first. */
  lemma {:induction false} StreamFromEmpty(words: seq<string>)
    ensures Feed([], words) == Reverse(words)[..Min(|words|, Cap)]
  {
    FeedKeepsNewest([], words);
    assert Reverse(words) + [] == Reverse(words);
  }

  /** Generating W1..W6 yields [W6, W5, W4, W3, W2]. */
  lemma SixWords(w1: string, w2: string, w3: string, w4: string, w5: string, w6: string)
    ensures Feed([], [w1, w2, w3, w4, w5, w6]) == [w6, w5, w4, w3, w2]
  {
    StreamFromEmpty([w1, w2, w3, w4, w5, w6]);
  }

  /** How an item is shown: the newest is emphasised, older ones carry an
      explicit opacity and font size. */
  datatype Look = Current | Past(opacityTenths: int, fontTenths: int)

  datatype Item = Item(word: string, look: Look)

  /** The look of the item at `index` of the buffer. */
  function LookAt(index: nat): (look: Look) {
    if index == 0 then Current
    else Past(OpacityBase - index * OpacityStep, FontBase - index * FontStep)
  }

  /** `renderHistory`: one item per buffer entry, in buffer order. */
  function Render(history: seq<string>): (items: seq<Item>)
    ensures |items| == |history|
    ensures forall i :: 0 <= i < |items| ==> items[i].word == history[i]
    ensures forall i :: 0 <= i < |items| ==> (items[i].look.Current? <==> i == 0)
    ensures forall i :: 1 <= i < |items| ==> items[i].look == Past(6 - i, 25 - 3 * i)
  {
    seq(|history|, i requires 0 <= i < |history| => Item(history[i], LookAt(i)))
  }

  /** Under the cap, every older item stays visible with a positive opacity
      and font size, and both shrink strictly with age. */
  lemma FadeStaysPositive(history: seq<string>)
    requires |history| <= Cap
    ensures forall i :: 1 <= i < |history| ==>
      0 < Render(history)[i].look.opacityTenths < 10 && 0 < Render(history)[i].look.fontTenths < FontBase
    ensures forall i, j :: 1 <= i < j < |history| ==>
      Render(history)[j].look.opacityTenths < Render(history)[i].look.opacityTenths &&
      Render(history)[j].look.fontTenths < Render(history)[i].look.fontTenths
  {
  }
}
