/** The text a cache key is hashed from, and when that text determines the request. */
module CacheKey {
  import opened Types
  import opened Text

  function Segment(m: Message): string {
    m.role + ":" + m.content + "|"
  }

  function Segments(ms: seq<Message>): string {
    if ms == [] then "" else Segment(ms[0]) + Segments(ms[1..])
  }

  function Params(temperature: string, maxTokens: int): string {
    "t=" + temperature + "|" + ("m=" + IntToString(maxTokens))
  }

  function Tail(matchParams: bool, temperature: string, maxTokens: int): string {
    if matchParams then Params(temperature, maxTokens) else ""
  }

  /** The text before hashing; `render` is how the runtime prints a temperature. */
  function PreHash(req: ChatRequest, matchParams: bool, render: real -> string): string {
    req.model + "|" + Segments(req.messages) + Tail(matchParams, render(req.temperature), req.maxTokens)
  }

  function Key(req: ChatRequest, matchParams: bool, render: real -> string, hash: string -> nat): string {
    NatToString(hash(PreHash(req, matchParams, render)))
  }

  lemma {:induction false} SegmentsAppend(ms: seq<Message>, m: Message)
    ensures Segments(ms + [m]) == Segments(ms) + Segment(m)
  {
    if ms == [] {
      assert Segments([m]) == Segment(m) + Segments([]);
    } else {
      assert (ms + [m])[0] == ms[0] && (ms + [m])[1..] == ms[1..] + [m];
      SegmentsAppend(ms[1..], m);
    }
  }

  method MakeKey(req: ChatRequest, matchParams: bool, render: real -> string, hash: string -> nat)
    returns (key: string)
    ensures key == Key(req, matchParams, render, hash)
  {
    var text := req.model + "|";
    for i := 0 to |req.messages|
      invariant text == req.model + "|" + Segments(req.messages[..i])
    {
      var msg := req.messages[i];
      SegmentsAppend(req.messages[..i], msg);
      assert req.messages[..i + 1] == req.messages[..i] + [msg];
      text := text + (msg.role + ":" + msg.content + "|");
    }
    assert req.messages[..|req.messages|] == req.messages;
    if matchParams {
      ghost var before := text;
      text := text + ("t=" + render(req.temperature) + "|");
      text := text + ("m=" + IntToString(req.maxTokens));
      assert text == before + Params(render(req.temperature), req.maxTokens);
    } else {
      assert text == text + "";
    }
    key := NatToString(hash(text));
  }

  /** The text of a request with one message, written out. */
  lemma PreHashOfOne(req: ChatRequest, m: Message, matchParams: bool, render: real -> string)
    requires req.messages == [m]
    ensures PreHash(req, matchParams, render)
         == req.model + "|" + m.role + ":" + m.content + "|"
          + (if matchParams then "t=" + render(req.temperature) + "|m=" + IntToString(req.maxTokens) else "")
  {
    assert Segments([m]) == Segment(m) + "";
    if matchParams {
      assert Params(render(req.temperature), req.maxTokens)
          == "t=" + render(req.temperature) + "|m=" + IntToString(req.maxTokens);
    }
  }

  /** Two requests have the same key exactly when their whole texts hash alike. */
  lemma KeysAgree(a: ChatRequest, b: ChatRequest, matchParams: bool, render: real -> string, hash: string -> nat)
    ensures Key(a, matchParams, render, hash) == Key(b, matchParams, render, hash)
       <==> hash(PreHash(a, matchParams, render)) == hash(PreHash(b, matchParams, render))
  {
    if Key(a, matchParams, render, hash) == Key(b, matchParams, render, hash) {
      NatToStringInjective(hash(PreHash(a, matchParams, render)), hash(PreHash(b, matchParams, render)));
    }
  }

  // ----- Decoding ---------------------------------------------------------

  predicate Plain(m: Message) {
    '|' !in m.role && '|' !in m.content && ':' !in m.role
  }

  predicate Decodable(req: ChatRequest, render: real -> string) {
    '|' !in req.model
    && (forall m :: m in req.messages ==> Plain(m))
    && '|' !in render(req.temperature)
  }

  /** One rendered message followed by anything gives back the message and the rest. */
  lemma SegmentDecodes(m: Message, s: string, n: Message, t: string)
    requires Plain(m) && Plain(n)
    requires Segment(m) + s == Segment(n) + t
    ensures m == n && s == t
  {
    var x, y := m.role + ":" + m.content, n.role + ":" + n.content;
    assert Segment(m) + s == x + ['|'] + s && Segment(n) + t == y + ['|'] + t;
    CutUnique(x, s, y, t, '|');
    CutUnique(m.role, m.content, n.role, n.content, ':');
  }

  /** Each plain message contributes exactly one `|`. */
  lemma {:induction false} BarsOfSegments(ms: seq<Message>)
    requires forall m :: m in ms ==> Plain(m)
    ensures multiset(Segments(ms))['|'] == |ms|
  {
    if ms != [] {
      BarsOfSegments(ms[1..]);
      var m := ms[0];
      assert m in ms;
      assert multiset(Segment(m)) == multiset(m.role) + multiset(":") + multiset(m.content) + multiset("|");
      assert multiset(":")['|'] == 0 && multiset("|")['|'] == 1;
    }
  }

  lemma SegmentsHead(ms: seq<Message>, tail: string)
    requires ms != []
    ensures Segments(ms) + tail == Segment(ms[0]) + (Segments(ms[1..]) + tail)
  {}

  lemma {:induction false} SegmentsDecode(ms: seq<Message>, tail: string, ns: seq<Message>, tail': string)
    requires forall m :: m in ms ==> Plain(m)
    requires forall m :: m in ns ==> Plain(m)
    requires |ms| == |ns|
    requires Segments(ms) + tail == Segments(ns) + tail'
    ensures ms == ns && tail == tail'
  {
    if ms == [] {
      assert Segments(ms) + tail == tail && Segments(ns) + tail' == tail';
    } else {
      SegmentsHead(ms, tail);
      SegmentsHead(ns, tail');
      SegmentDecodes(ms[0], Segments(ms[1..]) + tail, ns[0], Segments(ns[1..]) + tail');
      SegmentsDecode(ms[1..], tail, ns[1..], tail');
      assert ms == [ms[0]] + ms[1..] && ns == [ns[0]] + ns[1..];
    }
  }

  lemma BarsOfTail(matchParams: bool, temperature: string, maxTokens: int)
    requires '|' !in temperature
    ensures multiset(Tail(matchParams, temperature, maxTokens))['|'] == if matchParams then 1 else 0
  {
    if matchParams {
      var digits := IntToString(maxTokens);
      assert '|' !in digits;
      assert multiset("t=")['|'] == 0 && multiset("m=")['|'] == 0 && multiset("|")['|'] == 1;
      assert Params(temperature, maxTokens) == "t=" + temperature + "|" + ("m=" + digits);
      assert multiset("t=" + temperature)['|'] == 0;
      assert multiset("t=" + temperature + "|")['|'] == 1;
      assert multiset("m=" + digits)['|'] == 0;
    } else {
      assert '|' !in "";
    }
  }

  lemma TailDecodes(matchParams: bool, s: string, m: int, t: string, n: int)
    requires '|' !in s && '|' !in t
    requires Tail(matchParams, s, m) == Tail(matchParams, t, n)
    ensures matchParams ==> s == t && m == n
  {
    if matchParams {
      var x, y := "t=" + s, "t=" + t;
      var u, v := "m=" + IntToString(m), "m=" + IntToString(n);
      assert x + ['|'] + u == y + ['|'] + v;
      CutUnique(x, u, y, v, '|');
      assert s == x[2..] && t == y[2..];
      assert IntToString(m) == u[2..] && IntToString(n) == v[2..];
      IntToStringInjective(m, n);
    }
  }

  lemma SameLength(a: ChatRequest, b: ChatRequest, matchParams: bool, render: real -> string, x: string, y: string)
    requires Decodable(a, render) && Decodable(b, render)
    requires x == Tail(matchParams, render(a.temperature), a.maxTokens)
    requires y == Tail(matchParams, render(b.temperature), b.maxTokens)
    requires Segments(a.messages) + x == Segments(b.messages) + y
    ensures |a.messages| == |b.messages|
  {
    BarsOfSegments(a.messages);
    BarsOfSegments(b.messages);
    BarsOfTail(matchParams, render(a.temperature), a.maxTokens);
    BarsOfTail(matchParams, render(b.temperature), b.maxTokens);
    assert multiset(Segments(a.messages) + x)['|'] == |a.messages| + multiset(x)['|'];
    assert multiset(Segments(b.messages) + y)['|'] == |b.messages| + multiset(y)['|'];
  }

  lemma PreHashSplits(req: ChatRequest, matchParams: bool, render: real -> string)
    ensures PreHash(req, matchParams, render)
         == req.model + ['|'] + (Segments(req.messages) + Tail(matchParams, render(req.temperature), req.maxTokens))
  {}

  /** Equal texts come from requests that agree on everything the key is meant to cover. */
  lemma PreHashDecodes(a: ChatRequest, b: ChatRequest, matchParams: bool, render: real -> string)
    requires Decodable(a, render) && Decodable(b, render)
    ensures PreHash(a, matchParams, render) == PreHash(b, matchParams, render) <==>
      a.model == b.model && a.messages == b.messages
      && (matchParams ==>
            render(a.temperature) == render(b.temperature) && a.maxTokens == b.maxTokens)
  {
    if PreHash(a, matchParams, render) == PreHash(b, matchParams, render) {
      var x := Tail(matchParams, render(a.temperature), a.maxTokens);
      var y := Tail(matchParams, render(b.temperature), b.maxTokens);
      var s, t := Segments(a.messages) + x, Segments(b.messages) + y;
      PreHashSplits(a, matchParams, render);
      PreHashSplits(b, matchParams, render);
      CutUnique(a.model, s, b.model, t, '|');
      SameLength(a, b, matchParams, render, x, y);
      SegmentsDecode(a.messages, x, b.messages, y);
      TailDecodes(matchParams, render(a.temperature), a.maxTokens, render(b.temperature), b.maxTokens);
    }
  }

  /** Without the restriction on `|`, two different conversations share one text. */
  lemma PreHashIsAmbiguous(req: ChatRequest, matchParams: bool, render: real -> string)
    ensures
      var a := req.(messages := [Message("user", "x|user:y")]);
      var b := req.(messages := [Message("user", "x"), Message("user", "y")]);
      a.messages != b.messages && PreHash(a, matchParams, render) == PreHash(b, matchParams, render)
  {
    var one := [Message("user", "x|user:y")];
    var two := [Message("user", "x"), Message("user", "y")];
    assert Segments(one) == Segment(one[0]) + "" == "user:x|user:y|";
    assert two[1..] == [two[1]];
    assert Segments(two) == Segment(two[0]) + (Segment(two[1]) + "") == "user:x|user:y|";
  }
}
