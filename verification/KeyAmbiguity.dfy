/** Exactly when the text a cache key is hashed from determines the request it was made for. */
module KeyAmbiguity {
  import opened Types
  import opened Text
  import opened CacheKey

  // ----- Rendered messages read back -------------------------------------------------------

  /** Any text that ends with the bar can be read as one message, cut at any of its colons. */
  function ReadAt(text: string, i: nat): Message
    requires i < |text| - 1
  {
    Message(text[..i], text[i + 1..|text| - 1])
  }

  lemma ReadAtIs(text: string, i: nat)
    requires i < |text| - 1 && text[i] == ':' && text[|text| - 1] == '|'
    ensures Segments([ReadAt(text, i)]) == text
  {
    var m := ReadAt(text, i);
    assert text == m.role + ":" + m.content + "|";
    assert Segments([m]) == Segment(m) + "";
  }

  lemma ColonsOfSegment(m: Message)
    ensures multiset(Segment(m))[':'] == multiset(m.role)[':'] + 1 + multiset(m.content)[':']
  {
    assert multiset(Segment(m)) == multiset(m.role) + multiset(":") + multiset(m.content) + multiset("|");
    assert multiset(":")[':'] == 1 && multiset("|")[':'] == 0;
  }

  /** A rendered conversation ends with the bar and has at least one colon per message. */
  lemma {:induction false} SegmentsShape(ms: seq<Message>)
    ensures multiset(Segments(ms))[':'] >= |ms|
    ensures ms != [] ==> |Segments(ms)| >= 2 && Segments(ms)[|Segments(ms)| - 1] == '|'
  {
    if ms != [] {
      SegmentsShape(ms[1..]);
      ColonsOfSegment(ms[0]);
      assert multiset(Segments(ms)) == multiset(Segment(ms[0])) + multiset(Segments(ms[1..]));
      if |ms| > 1 {
        assert Segments(ms)[|Segment(ms[0])|..] == Segments(ms[1..]);
      }
    }
  }

  lemma Occurs(s: string, c: char)
    requires multiset(s)[c] >= 1
    ensures c in s
  {
    assert c in multiset(s);
  }

  lemma OccursTwice(s: string, c: char) returns (i: nat, j: nat)
    requires multiset(s)[c] >= 2
    ensures i < j < |s| && s[i] == c && s[j] == c
  {
    Occurs(s, c);
    var k: nat :| k < |s| && s[k] == c;
    var a, b := s[..k], s[k + 1..];
    assert s == a + [c] + b;
    assert multiset(s) == multiset(a) + multiset([c]) + multiset(b);
    assert multiset([c])[c] == 1;
    if multiset(a)[c] >= 1 {
      Occurs(a, c);
      var l: nat :| l < |a| && a[l] == c;
      i, j := l, k;
    } else {
      Occurs(b, c);
      var l: nat :| l < |b| && b[l] == c;
      i, j := k, k + 1 + l;
    }
  }

  // ----- One model, one setting: which conversations collide -------------------------------

  lemma SegmentShape(m: Message)
    ensures Segments([m]) == Segment(m) == m.role + [':'] + (m.content + "|")
  {
    assert Segments([m]) == Segment(m) + "";
  }

  lemma NoneOf(s: string, c: char)
    requires multiset(s)[c] == 0
    ensures c !in s
  {
    assert c in s ==> c in multiset(s);
  }

  /** With a single colon there is one message, without a colon of its own. */
  lemma OneColon(ms: seq<Message>)
    requires ms != [] && multiset(Segments(ms))[':'] == 1
    ensures |ms| == 1 && ':' !in ms[0].role && Segments(ms) == ms[0].role + [':'] + (ms[0].content + "|")
  {
    SegmentsShape(ms);
    var m := ms[0];
    assert ms == [m];
    SegmentShape(m);
    ColonsOfSegment(m);
    NoneOf(m.role, ':');
  }

  lemma OneColonDecodes(ms: seq<Message>, ns: seq<Message>)
    requires ms != [] && ns != [] && Segments(ns) == Segments(ms) && multiset(Segments(ms))[':'] == 1
    ensures ns == ms
  {
    OneColon(ms);
    OneColon(ns);
    var m, n := ms[0], ns[0];
    CutUnique(m.role, m.content + "|", n.role, n.content + "|", ':');
    assert m.content == (m.content + "|")[..|m.content|] && n.content == (n.content + "|")[..|n.content|];
    assert ms == [m] && ns == [n];
  }

  /** Two colons give two readings as a single message, so one of them is another conversation. */
  lemma TwoColonsCollide(ms: seq<Message>) returns (ns: seq<Message>)
    requires ms != [] && multiset(Segments(ms))[':'] >= 2
    ensures ns != [] && ns != ms && Segments(ns) == Segments(ms)
  {
    var text := Segments(ms);
    SegmentsShape(ms);
    var i, j := OccursTwice(text, ':');
    ReadAtIs(text, i);
    ReadAtIs(text, j);
    assert |ReadAt(text, i).role| == i && |ReadAt(text, j).role| == j;
    ns := if ms == [ReadAt(text, i)] then [ReadAt(text, j)] else [ReadAt(text, i)];
  }

  lemma SameModelCollides(req: ChatRequest, ns: seq<Message>, matchParams: bool, render: real -> string)
    ensures PreHash(req.(messages := ns), matchParams, render) == PreHash(req, matchParams, render)
       <==> Segments(ns) == Segments(req.messages)
  {
    var head, tail := req.model + "|", Tail(matchParams, render(req.temperature), req.maxTokens);
    var x, y := head + Segments(ns) + tail, head + Segments(req.messages) + tail;
    if x == y {
      assert Segments(ns) == x[|head|..|x| - |tail|];
      assert Segments(req.messages) == y[|head|..|y| - |tail|];
    }
  }

  /** For one model, setting and parameters the text determines the conversation if and only if the rendered
      conversation has a single colon. */
  lemma ConversationDetermined(req: ChatRequest, matchParams: bool, render: real -> string)
    requires req.messages != []
    ensures (forall ns: seq<Message> ::
               ns != [] && PreHash(req.(messages := ns), matchParams, render) == PreHash(req, matchParams, render)
               ==> ns == req.messages)
       <==> multiset(Segments(req.messages))[':'] == 1
  {
    var ms := req.messages;
    SegmentsShape(ms);
    if multiset(Segments(ms))[':'] == 1 {
      forall ns: seq<Message> |
        ns != [] && PreHash(req.(messages := ns), matchParams, render) == PreHash(req, matchParams, render)
        ensures ns == ms
      {
        SameModelCollides(req, ns, matchParams, render);
        OneColonDecodes(ms, ns);
      }
    } else {
      var ns := TwoColonsCollide(ms);
      SameModelCollides(req, ns, matchParams, render);
    }
  }

  /** So every conversation of two or more messages shares its text with another one. */
  lemma LongConversationsCollide(req: ChatRequest, matchParams: bool, render: real -> string)
    returns (ns: seq<Message>)
    requires |req.messages| >= 2
    ensures ns != [] && ns != req.messages
    ensures PreHash(req.(messages := ns), matchParams, render) == PreHash(req, matchParams, render)
  {
    SegmentsShape(req.messages);
    ns := TwoColonsCollide(req.messages);
    SameModelCollides(req, ns, matchParams, render);
  }

  // ----- All requests -----------------------------------------------------------------------

  /** The two requests agree on everything the key is meant to cover. */
  predicate SameCovered(a: ChatRequest, b: ChatRequest, matchParams: bool, render: real -> string) {
    a.model == b.model && a.messages == b.messages
    && (matchParams ==> render(a.temperature) == render(b.temperature) && a.maxTokens == b.maxTokens)
  }

  /** The runtime prints temperatures as numbers, never with the separator. */
  ghost predicate PrintsNoBar(render: real -> string) {
    forall x :: '|' !in render(x)
  }

  /** The text of the model and the conversation, without the closing bar. */
  function Head(req: ChatRequest): string
    requires req.messages != []
  {
    var text := req.model + "|" + Segments(req.messages);
    text[..|text| - 1]
  }

  lemma EndsWithBar(model: string, s: string)
    requires s != [] && s[|s| - 1] == '|'
    ensures var text := model + "|" + s; text[..|text| - 1] + ['|'] == model + ['|'] + s
  {
    var text := model + "|" + s;
    assert text[|text| - 1] == '|';
  }

  lemma HeadIs(req: ChatRequest)
    requires req.messages != []
    ensures Head(req) + ['|'] == req.model + ['|'] + Segments(req.messages)
  {
    SegmentsShape(req.messages);
    EndsWithBar(req.model, Segments(req.messages));
  }

  /** Whatever the model and the messages contain, the parameters can be cut off from the right. */
  lemma ParametersDecode(a: ChatRequest, b: ChatRequest, matchParams: bool, render: real -> string)
    requires a.messages != [] && b.messages != [] && PrintsNoBar(render)
    requires PreHash(a, matchParams, render) == PreHash(b, matchParams, render)
    ensures a.model + ['|'] + Segments(a.messages) == b.model + ['|'] + Segments(b.messages)
    ensures matchParams ==> render(a.temperature) == render(b.temperature) && a.maxTokens == b.maxTokens
  {
    HeadIs(a);
    HeadIs(b);
    var x := Tail(matchParams, render(a.temperature), a.maxTokens);
    var y := Tail(matchParams, render(b.temperature), b.maxTokens);
    assert PreHash(a, matchParams, render) == Head(a) + ['|'] + x;
    assert PreHash(b, matchParams, render) == Head(b) + ['|'] + y;
    if matchParams {
      var s, t := "t=" + render(a.temperature), "t=" + render(b.temperature);
      var u, v := "m=" + IntToString(a.maxTokens), "m=" + IntToString(b.maxTokens);
      assert Head(a) + ['|'] + x == (Head(a) + ['|'] + s) + ['|'] + u;
      assert Head(b) + ['|'] + y == (Head(b) + ['|'] + t) + ['|'] + v;
      CutUniqueRight(Head(a) + ['|'] + s, u, Head(b) + ['|'] + t, v, '|');
      CutUniqueRight(Head(a), s, Head(b), t, '|');
      TailDecodes(matchParams, render(a.temperature), a.maxTokens, render(b.temperature), b.maxTokens);
    } else {
      assert Head(a) + ['|'] + "" == Head(a) + ['|'] && Head(b) + ['|'] + "" == Head(b) + ['|'];
    }
  }

  /** The model has no bar, and in the rendered conversation the only colon comes before every bar. */
  predicate Unambiguous(req: ChatRequest)
    requires req.messages != []
  {
    '|' !in req.model && multiset(Segments(req.messages))[':'] == 1 && '|' !in req.messages[0].role
  }

  /** Where the second text is cut, if not where the first is: behind the colon. */
  lemma LaterCut(x: string, role: string, rest: string, y: string, t: string)
    requires '|' !in x && '|' !in role
    requires x + ['|'] + (role + [':'] + rest) == y + ['|'] + t
    ensures y == x || |y| > |x| + 1 + |role|
  {
    var text := x + ['|'] + (role + [':'] + rest);
    assert text[|y|] == (y + ['|'] + t)[|y|] == '|';
    assert forall i :: 0 <= i < |x| ==> text[i] == x[i] && x[i] in x;
    assert forall i :: 0 <= i < |role| ==> text[|x| + 1 + i] == role[i] && role[i] in role;
    assert text[|x| + 1 + |role|] == ':';
    if |y| == |x| {
      assert x == text[..|x|] && y == text[..|y|];
    }
  }

  /** The second text then has one colon less. */
  lemma ColonsBehind(x: string, role: string, rest: string, y: string, t: string)
    requires x + ['|'] + (role + [':'] + rest) == y + ['|'] + t && |y| > |x| + 1 + |role|
    ensures multiset(role + [':'] + rest)[':'] >= 1 + multiset(t)[':']
  {
    var s := role + [':'] + rest;
    var text := x + ['|'] + s;
    var u := s[..|y| - |x|];
    assert t == text[|y| + 1..] == s[|u|..];
    assert s == u + t;
    assert multiset(s) == multiset(u) + multiset(t);
    assert u[|role|] == ':';
    assert ':' in multiset(u);
  }

  lemma ModelDecodes(a: ChatRequest, b: ChatRequest)
    requires a.messages != [] && b.messages != [] && Unambiguous(a)
    requires a.model + ['|'] + Segments(a.messages) == b.model + ['|'] + Segments(b.messages)
    ensures a.model == b.model && Segments(a.messages) == Segments(b.messages)
  {
    var m, s, t := a.messages[0], Segments(a.messages), Segments(b.messages);
    OneColon(a.messages);
    SegmentsShape(b.messages);
    LaterCut(a.model, m.role, m.content + "|", b.model, t);
    if |b.model| > |a.model| + 1 + |m.role| {
      ColonsBehind(a.model, m.role, m.content + "|", b.model, t);
    } else {
      var x := a.model + ['|'];
      assert s == (x + s)[|x|..] && t == (x + t)[|x|..];
    }
  }

  /** A bar in the model, or before the colon of the first message, starts another reading. */
  lemma BarCollides(a: ChatRequest, k: nat, matchParams: bool, render: real -> string) returns (b: ChatRequest)
    requires var text := a.model + "|" + Segments(a.messages);
      a.messages != [] && k < |text| && k != |a.model| && text[k] == '|' && ':' in text[k + 1..]
    ensures b.messages != [] && b.model != a.model
    ensures PreHash(b, matchParams, render) == PreHash(a, matchParams, render)
  {
    var text := a.model + "|" + Segments(a.messages);
    var rest := text[k + 1..];
    SegmentsShape(a.messages);
    assert text[|text| - 1] == '|';
    var i: nat :| i < |rest| && rest[i] == ':';
    ReadAtIs(rest, i);
    b := a.(model := text[..k], messages := [ReadAt(rest, i)]);
    assert text == text[..k] + "|" + rest;
  }

  lemma BarInModel(model: string, s: string, k: nat)
    requires k < |model| && model[k] == '|' && ':' in s
    ensures var text := model + "|" + s; text[k] == '|' && ':' in text[k + 1..]
  {
    var text := model + "|" + s;
    assert text[k + 1..] == model[k + 1..] + "|" + s;
  }

  lemma BarInRole(model: string, role: string, rest: string, j: nat)
    requires j < |role| && role[j] == '|'
    ensures var text, k := model + "|" + (role + [':'] + rest), |model| + 1 + j;
      text[k] == '|' && ':' in text[k + 1..]
  {
    var text, k := model + "|" + (role + [':'] + rest), |model| + 1 + j;
    assert text[|model| + 1 + |role|] == ':';
    assert text[k + 1..][|role| - j - 1] == ':';
  }

  lemma AmbiguousCollides(a: ChatRequest, matchParams: bool, render: real -> string) returns (b: ChatRequest)
    requires a.messages != [] && !Unambiguous(a)
    ensures b.messages != [] && !SameCovered(a, b, matchParams, render)
    ensures PreHash(b, matchParams, render) == PreHash(a, matchParams, render)
  {
    var s, m := Segments(a.messages), a.messages[0];
    SegmentsShape(a.messages);
    if multiset(s)[':'] != 1 {
      var ns := TwoColonsCollide(a.messages);
      SameModelCollides(a, ns, matchParams, render);
      b := a.(messages := ns);
    } else if '|' in a.model {
      var k: nat :| k < |a.model| && a.model[k] == '|';
      Occurs(s, ':');
      BarInModel(a.model, s, k);
      b := BarCollides(a, k, matchParams, render);
    } else {
      var j: nat :| j < |m.role| && m.role[j] == '|';
      OneColon(a.messages);
      BarInRole(a.model, m.role, m.content + "|", j);
      b := BarCollides(a, |a.model| + 1 + j, matchParams, render);
    }
  }

  /** Among requests with messages, the text determines everything the key is meant to cover if and only if
      the model has no bar and the rendered conversation has one colon, with no bar before it. */
  lemma RequestDetermined(a: ChatRequest, matchParams: bool, render: real -> string)
    requires a.messages != [] && PrintsNoBar(render)
    ensures (forall b: ChatRequest ::
               b.messages != [] && PreHash(b, matchParams, render) == PreHash(a, matchParams, render)
               ==> SameCovered(a, b, matchParams, render))
       <==> Unambiguous(a)
  {
    if Unambiguous(a) {
      forall b: ChatRequest | b.messages != [] && PreHash(b, matchParams, render) == PreHash(a, matchParams, render)
        ensures SameCovered(a, b, matchParams, render)
      {
        ParametersDecode(a, b, matchParams, render);
        ModelDecodes(a, b);
        OneColonDecodes(a.messages, b.messages);
      }
    } else {
      var b := AmbiguousCollides(a, matchParams, render);
    }
  }
}
