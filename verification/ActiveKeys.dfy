/** The rendering "id:[t1 t2 ...]" under which an active scenario is stored (`%s:%v`), and when
    two requests share it. */
module ActiveKeys {
  /** The list printed with single spaces between its strings. */
  function Join(ts: seq<string>): string {
    if ts == [] then "" else if |ts| == 1 then ts[0] else ts[0] + " " + Join(ts[1..])
  }

  function Key(id: string, targets: seq<string>): string {
    id + ":" + "[" + Join(targets) + "]"
  }

  /** Cut a string at every space. */
  function Split(s: string): (ws: seq<string>)
    ensures ws != [] && forall w :: w in ws ==> ' ' !in w
  {
    if s == "" then [""]
    else
      var ws := Split(s[1..]);
      if s[0] == ' ' then [""] + ws else Grow(s[0], ws)
  }

  /** Put a character in front of the first word. */
  function Grow(c: char, ws: seq<string>): seq<string>
    requires ws != []
  {
    [[c] + ws[0]] + ws[1..]
  }

  /** The space-free words of a target list; no targets print like one empty target. */
  function Words(ts: seq<string>): seq<string> {
    if ts == [] then [""] else if |ts| == 1 then Split(ts[0]) else Split(ts[0]) + Words(ts[1..])
  }

  lemma JoinGrow(c: char, ws: seq<string>)
    requires ws != []
    ensures Join(Grow(c, ws)) == [c] + Join(ws)
  {
    var vs := Grow(c, ws);
    assert vs[1..] == ws[1..];
    assert |ws| > 1 ==> [c] + ws[0] + " " + Join(ws[1..]) == [c] + (ws[0] + " " + Join(ws[1..]));
  }

  lemma JoinEmptyFirst(ws: seq<string>)
    requires ws != []
    ensures Join([""] + ws) == " " + Join(ws)
  {
    assert ([""] + ws)[1..] == ws;
  }

  lemma {:induction false} JoinSplit(s: string)
    ensures Join(Split(s)) == s
  {
    if s != "" {
      JoinSplit(s[1..]);
      JoinEmptyFirst(Split(s[1..]));
      JoinGrow(s[0], Split(s[1..]));
      assert s == [s[0]] + s[1..];
    }
  }

  lemma GrowConcat(c: char, ws: seq<string>, vs: seq<string>)
    requires ws != []
    ensures Grow(c, ws + vs) == Grow(c, ws) + vs
  {
    assert (ws + vs)[1..] == ws[1..] + vs;
  }

  lemma {:induction false} SplitAtSpace(a: string, b: string)
    ensures Split(a + " " + b) == Split(a) + Split(b)
  {
    var s := a + " " + b;
    if a == "" {
      assert s[0] == ' ' && s[1..] == b;
    } else {
      assert s[0] == a[0] && s[1..] == a[1..] + " " + b;
      SplitAtSpace(a[1..], b);
      GrowConcat(a[0], Split(a[1..]), Split(b));
      assert [""] + (Split(a[1..]) + Split(b)) == [""] + Split(a[1..]) + Split(b);
    }
  }

  lemma {:induction false} SplitJoin(ts: seq<string>)
    ensures Split(Join(ts)) == Words(ts)
  {
    if |ts| > 1 {
      SplitJoin(ts[1..]);
      SplitAtSpace(ts[0], Join(ts[1..]));
    }
  }

  lemma {:induction false} SplitPlain(s: string)
    requires ' ' !in s
    ensures Split(s) == [s]
  {
    if s != "" {
      SplitPlain(s[1..]);
      assert s[0] in s && s == [s[0]] + s[1..];
    }
  }

  lemma {:induction false} WordsPlain(ts: seq<string>)
    requires ts != [] && forall t :: t in ts ==> ' ' !in t
    ensures Words(ts) == ts
  {
    if |ts| == 1 {
      SplitPlain(ts[0]);
    } else {
      SplitPlain(ts[0]);
      WordsPlain(ts[1..]);
      assert ts == [ts[0]] + ts[1..];
    }
  }

  /** Two requests with colon-free ids share a key exactly when the ids are equal and the target
      lists have the same space-separated words. */
  lemma KeyCollision(id: string, ts: seq<string>, id': string, ts': seq<string>)
    requires ':' !in id && ':' !in id'
    ensures Key(id, ts) == Key(id', ts') <==> id == id' && Words(ts) == Words(ts')
  {
    var j, j' := Join(ts), Join(ts');
    var k, k' := Key(id, ts), Key(id', ts');
    if k == k' {
      assert k == id + (":[" + j + "]") && k' == id' + (":[" + j' + "]");
      assert k[|id|] == ':' && k'[|id'|] == ':';
      assert forall i :: 0 <= i < |id| ==> k[i] in id;
      assert forall i :: 0 <= i < |id'| ==> k'[i] in id';
      assert |id| == |id'|;
      assert k[..|id|] == id && k'[..|id'|] == id';
      assert k[|id| + 2..|k| - 1] == j && k'[|id'| + 2..|k'| - 1] == j';
      SplitJoin(ts);
      SplitJoin(ts');
    }
    if id == id' && Words(ts) == Words(ts') {
      SplitJoin(ts);
      SplitJoin(ts');
      JoinSplit(j);
      JoinSplit(j');
    }
  }

  function NonEmpty(ts: seq<string>): seq<string> {
    if ts == [] then [""] else ts
  }

  /** So the key is injective on non-empty target lists without spaces; an empty list prints like a
      list of one empty string. */
  lemma KeyInjective(id: string, ts: seq<string>, id': string, ts': seq<string>)
    requires ':' !in id && ':' !in id'
    requires forall t :: t in ts ==> ' ' !in t
    requires forall t :: t in ts' ==> ' ' !in t
    ensures Key(id, ts) == Key(id', ts') <==> id == id' && NonEmpty(ts) == NonEmpty(ts')
  {
    KeyCollision(id, ts, id', ts');
    WordsPlain(NonEmpty(ts));
    WordsPlain(NonEmpty(ts'));
  }

  /** With a space in a target, two different lists share a key. */
  lemma SpaceCollision(id: string)
    ensures Key(id, ["a b"]) == Key(id, ["a", "b"]) && ["a b"] != ["a", "b"]
  {
    assert ["a", "b"][1..] == ["b"];
  }
}
