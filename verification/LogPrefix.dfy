/**
 The two builders of the "[key=value key=value] " prefix of log lines: one merges prefixes by
 slicing strings (phlogger/context.go), the other keeps the fields and rebuilds the prefix
 every time (phtrace/log.go).
 */
module LogPrefix {

  const TRACE_ID := "trace_id"
  const SPAN_ID := "span_id"

  function Pair(key: string, value: string): string { key + "=" + value }

  /** The pairs among the first `e` fields, separated by blanks. */
  function Body(fields: seq<string>, e: nat): string
    requires e <= |fields|
  {
    if e < 2 then "" else Body(fields, e - 2) + (if e >= 4 then " " else "") + Pair(fields[e - 2], fields[e - 1])
  }

  function Open(fields: seq<string>, e: nat): (r: string)
    requires e <= |fields|
    ensures |r| >= 1
  {
    "[" + Body(fields, e)
  }

  /** The number of fields that belong to pairs. */
  function Paired(fields: seq<string>): (e: nat)
    ensures e <= |fields| && e % 2 == 0
  {
    |fields| - |fields| % 2
  }

  lemma PairedIs(fields: seq<string>, e: nat)
    requires e % 2 == 0 && e <= |fields| <= e + 1
    ensures Paired(fields) == e
  {
  }

  /** The prefix of a list of fields; a last key without a value is dropped. */
  function Prefix(fields: seq<string>): (r: string)
    ensures fields == [] || |r| >= 3
  {
    if fields == [] then "" else Open(fields, Paired(fields)) + "] "
  }

  /** A text with one more pair. */
  function Appended(text: string, first: bool, key: string, value: string): string {
    text + (if first then "" else " ") + key + "=" + value
  }

  lemma BodyStart(fields: seq<string>)
    ensures Open(fields, 0) == "["
  {
  }

  lemma BodyStep(fields: seq<string>, i: nat)
    requires i + 1 < |fields| && i % 2 == 0
    ensures Appended(Open(fields, i), i == 0, fields[i], fields[i + 1]) == Open(fields, i + 2)
    ensures i == 0 ==> Open(fields, i) == Open(fields, i) + ""
  {
    var k, v := fields[i], fields[i + 1];
    assert Body(fields, i + 2) == Body(fields, i) + (if i > 0 then " " else "") + Pair(k, v);
  }

  method NewLogContext(fields: seq<string>) returns (prefix: string)
    ensures prefix == Prefix(fields)
  {
    if |fields| == 0 {
      return "";
    }
    var b := "[";
    var pairs := 0;
    var i := 0;
    while i + 1 < |fields|
      invariant i <= |fields| && i % 2 == 0 && 0 <= pairs && (pairs > 0 <==> i > 0)
      invariant b == Open(fields, i)
    {
      BodyStep(fields, i);
      if pairs > 0 {
        b := b + " ";
      }
      b := b + fields[i];
      b := b + "=";
      b := b + fields[i + 1];
      pairs := pairs + 1;
      i := i + 2;
    }
    assert i == Paired(fields);
    return b + "] ";
  }

  /** `With` on the prefix of a context. */
  function Extend(prefix: string, fields: seq<string>): (r: string)
    requires prefix == "" || |prefix| >= 3
    ensures r == "" || |r| >= 3
  {
    if fields == [] then prefix
    else if prefix == "" then Prefix(fields)
    else prefix[..|prefix| - 2] + " " + Prefix(fields)[1..]
  }

  method With(prefix: string, fields: seq<string>) returns (r: string)
    requires prefix == "" || |prefix| >= 3
    ensures r == Extend(prefix, fields)
  {
    if |fields| == 0 {
      return prefix;
    }
    var extra := NewLogContext(fields);
    if prefix == "" {
      return extra;
    }
    r := prefix[..|prefix| - 2] + " " + extra[1..];
  }

  /** The fields that the current span contributes. */
  function Lead(traceID: string, spanID: string): (r: seq<string>)
    ensures |r| % 2 == 0
  {
    (if traceID == "" then [] else [TRACE_ID, traceID]) + if spanID == "" then [] else [SPAN_ID, spanID]
  }

  /** What buildPrefix returns. */
  function TracePrefix(traceID: string, spanID: string, fields: seq<string>): string {
    if traceID == "" && fields == [] then "" else Prefix(Lead(traceID, spanID) + fields)
  }

  /** The appends that buildPrefix repeats for every pair. */
  method AppendPair(buf: string, first: bool, key: string, value: string) returns (r: string)
    ensures r == Appended(buf, first, key, value)
  {
    r := buf;
    if first {
      assert r == buf + "";
    } else {
      r := r + " ";
    }
    r := r + key;
    r := r + "=";
    r := r + value;
  }

  /** The first part of buildPrefix: the bracket and the trace fields of the span, if any. */
  method OpenPrefix(traceID: string, spanID: string, ghost fields: seq<string>) returns (buf: string, first: bool)
    ensures buf == Written(Lead(traceID, spanID), fields, 0)
    ensures first <==> |Lead(traceID, spanID)| == 0
  {
    hide Open, Appended;
    ghost var all := Lead(traceID, spanID) + fields;
    ghost var n := 0;
    BodyStart(all);
    buf := "[";
    first := true;
    if traceID != "" {
      BodyStep(all, n);
      buf := AppendPair(buf, first, TRACE_ID, traceID);
      first := false;
      n := n + 2;
    }
    if spanID != "" {
      BodyStep(all, n);
      buf := AppendPair(buf, first, SPAN_ID, spanID);
      first := false;
    }
  }

  /** What buildPrefix has written once it has been through the first `i` fields. */
  ghost function Written(lead: seq<string>, fields: seq<string>, i: nat): string
    requires i <= |fields|
  {
    Open(lead + fields, |lead| + i)
  }

  lemma WrittenStep(lead: seq<string>, fields: seq<string>, i: nat)
    requires |lead| % 2 == 0 && i % 2 == 0 && i + 1 < |fields|
    ensures Appended(Written(lead, fields, i), |lead| + i == 0, fields[i], fields[i + 1]) == Written(lead, fields, i + 2)
  {
    hide Open, Appended;
    BodyStep(lead + fields, |lead| + i);
  }

  lemma TracePrefixIs(traceID: string, spanID: string, fields: seq<string>)
    ensures TracePrefix(traceID, spanID, fields) ==
              if traceID == "" && fields == [] then "" else Written(Lead(traceID, spanID), fields, Paired(fields)) + "] "
  {
    hide Open;
  }

  /** buildPrefix: the trace fields of the span, if any, then the fields. */
  method BuildPrefix(traceID: string, spanID: string, fields: seq<string>) returns (r: string)
    ensures r == TracePrefix(traceID, spanID, fields)
  {
    hide *;
    TracePrefixIs(traceID, spanID, fields);
    if traceID == "" && |fields| == 0 {
      return "";
    }
    ghost var lead := Lead(traceID, spanID);
    var buf, first := OpenPrefix(traceID, spanID, fields);
    var i := 0;
    while i + 1 < |fields|
      invariant i % 2 == 0 && i <= |fields|
      invariant buf == Written(lead, fields, i)
      invariant first <==> |lead| + i == 0
    {
      WrittenStep(lead, fields, i);
      buf := AppendPair(buf, first, fields[i], fields[i + 1]);
      first := false;
      i := i + 2;
    }
    PairedIs(fields, i);
    r := buf + "] ";
  }

  // ---------- the builders agree ----------

  lemma {:induction false} BodyOfPrefix(f: seq<string>, g: seq<string>, e: nat)
    requires e <= |f|
    ensures Body(f + g, e) == Body(f, e)
  {
    if e >= 2 { BodyOfPrefix(f, g, e - 2); }
  }

  lemma {:induction false} OpenConcat(f: seq<string>, g: seq<string>, e: nat)
    requires f != [] && |f| % 2 == 0 && e % 2 == 0 && e <= |g|
    ensures Open(f + g, |f| + e) == Open(f, |f|) + (if e > 0 then " " else "") + Body(g, e)
  {
    if e == 0 {
      BodyOfPrefix(f, g, |f|);
    } else {
      OpenConcat(f, g, e - 2);
      ConcatStep(f, g, e - 2);
    }
  }

  lemma BodyNext(fields: seq<string>, e: nat)
    requires e % 2 == 0 && e + 1 < |fields|
    ensures Body(fields, e + 2) == Body(fields, e) + (if e > 0 then " " else "") + Pair(fields[e], fields[e + 1])
    ensures e == 0 ==> Body(fields, e) == ""
  {
  }

  lemma ConcatStep(f: seq<string>, g: seq<string>, e: nat)
    requires f != [] && |f| % 2 == 0 && e % 2 == 0 && e + 1 < |g|
    requires Open(f + g, |f| + e) == Open(f, |f|) + (if e > 0 then " " else "") + Body(g, e)
    ensures Open(f + g, |f| + e + 2) == Open(f, |f|) + " " + Body(g, e + 2)
  {
    hide *;
    var k, v := g[e], g[e + 1];
    var sep := if e > 0 then " " else "";
    BodyNext(g, e);
    BodyStep(f + g, |f| + e);
    assert (f + g)[|f| + e] == k && (f + g)[|f| + e + 1] == v;
    assert Open(f + g, |f| + e + 2) == Appended(Open(f + g, |f| + e), false, k, v);
    Regroup(Open(f, |f|), Body(g, e), sep, k, v);
  }

  lemma Regroup(a: string, b: string, sep: string, k: string, v: string)
    requires sep == " " || (sep == "" && b == "")
    ensures Appended(a + sep + b, false, k, v) == a + " " + (b + sep + Pair(k, v))
  {
  }

  lemma CutEnd(a: string)
    ensures (a + "] ")[..|a + "] "| - 2] == a
  {
  }

  lemma CutStart(b: string)
    ensures ("[" + b + "] ")[1..] == b + "] "
  {
  }

  lemma Slices(f: seq<string>, g: seq<string>)
    requires f != [] && g != []
    ensures Extend(Prefix(f), g) == Open(f, Paired(f)) + " " + (Body(g, Paired(g)) + "] ")
  {
    hide Body;
    CutEnd(Open(f, Paired(f)));
    CutStart(Body(g, Paired(g)));
    assert Prefix(g) == "[" + Body(g, Paired(g)) + "] ";
    hide Open;
    assert Prefix(f) == Open(f, Paired(f)) + "] ";
  }

  lemma Brackets(a: string, b: string, sep: bool)
    ensures a + " " + (b + "] ") == a + (if sep then " " else "") + b + "] " <==> sep
  {
    if sep {
      assert a + " " + (b + "] ") == a + " " + b + "] ";
    } else {
      assert |a + " " + (b + "] ")| == |a + "" + b + "] "| + 1;
    }
  }

  /** Slicing one context's prefix into another's gives the prefix of all the fields, if the
      first has no dangling key, exactly when one of the lists is empty or the second is not a
      lone key. */
  lemma WithIsConcatenation(f: seq<string>, g: seq<string>)
    requires |f| % 2 == 0
    ensures Extend(Prefix(f), g) == Prefix(f + g) <==> f == [] || |g| != 1
  {
    hide Body;
    if f == [] {
      assert f + g == g;
    } else if g == [] {
      assert f + g == f;
    } else {
      Merge(f, g, Paired(g));
    }
  }

  lemma Merge(f: seq<string>, g: seq<string>, e: nat)
    requires f != [] && |f| % 2 == 0 && g != [] && e == Paired(g)
    ensures Extend(Prefix(f), g) == Prefix(f + g) <==> e > 0
  {
    hide Body, Open;
    Slices(f, g);
    OpenConcat(f, g, e);
    Brackets(Open(f, |f|), Body(g, e), e > 0);
    assert Prefix(f + g) == Open(f + g, |f| + e) + "] ";
  }

  function Concat(fs: seq<seq<string>>): seq<string> {
    if fs == [] then [] else Concat(fs[..|fs| - 1]) + fs[|fs| - 1]
  }

  /** NewLogContext(fs[0]).With(fs[1]).With(fs[2])... */
  function Chain(fs: seq<seq<string>>): (r: string)
    ensures r == "" || |r| >= 3
  {
    if fs == [] then "" else Extend(Chain(fs[..|fs| - 1]), fs[|fs| - 1])
  }

  ghost predicate AllEven(fs: seq<seq<string>>) {
    forall i | 0 <= i < |fs| :: |fs[i]| % 2 == 0
  }

  lemma {:induction false} EvenChain(fs: seq<seq<string>>)
    requires AllEven(fs)
    ensures |Concat(fs)| % 2 == 0 && Chain(fs) == Prefix(Concat(fs))
  {
    hide *;
    if fs == [] {
      NoChain();
    } else {
      var n := |fs| - 1;
      ChainNext(fs);
      EvenChain(fs[..n]);
      WithIsConcatenation(Concat(fs[..n]), fs[n]);
    }
  }

  lemma NoChain()
    ensures Concat([]) == [] && Chain([]) == Prefix([])
  {
  }

  lemma ChainNext(fs: seq<seq<string>>)
    requires fs != [] && AllEven(fs)
    ensures var n := |fs| - 1;
            && Concat(fs) == Concat(fs[..n]) + fs[n] && Chain(fs) == Extend(Chain(fs[..n]), fs[n])
            && AllEven(fs[..n]) && |fs[n]| % 2 == 0
  {
  }

  /** A chain of contexts whose lists are all even but perhaps the last has the prefix of the
      concatenated fields exactly when the last list is not a lone key added to other fields. */
  lemma ChainIsConcatenation(fs: seq<seq<string>>, last: seq<string>)
    requires AllEven(fs)
    ensures Chain(fs + [last]) == Prefix(Concat(fs) + last) <==> Concat(fs) == [] || |last| != 1
  {
    EvenChain(fs);
    assert (fs + [last])[..|fs|] == fs;
    WithIsConcatenation(Concat(fs), last);
  }

  lemma OnePair(fields: seq<string>, text: string)
    requires |fields| >= 2 && Pair(fields[0], fields[1]) == text
    ensures Body(fields, 2) == text
  {
    assert Body(fields, 0) == "";
  }

  /** A dangling key that is not in the last list makes a difference: the chain drops it, the
      concatenation pairs it with the next key. */
  lemma DanglingKeyInTheMiddle()
    ensures var f, g := ["a", "1", "b"], ["c", "2"];
            Extend(Prefix(f), g) == "[a=1 c=2] " && Prefix(f + g) == "[a=1 b=c] "
  {
    hide *;
    DanglingKey("a", "1", "b", "c", "2");
    DanglingPairs();
    DanglingTexts();
  }

  /** The two for any fields. */
  lemma DanglingKey(k: string, v: string, dangling: string, k': string, v': string)
    ensures var f, g := [k, v, dangling], [k', v'];
            && Extend(Prefix(f), g) == "[" + Pair(k, v) + " " + (Pair(k', v') + "] ")
            && Prefix(f + g) == "[" + (Pair(k, v) + " " + Pair(dangling, k')) + "] "
  {
    var f, g := [k, v, dangling], [k', v'];
    var all := [k, v, dangling, k', v'];
    assert f + g == all;
    Slices(f, g);
    OnePair(f, Pair(k, v));
    OnePair(g, Pair(k', v'));
    TwoPairs(all, Pair(k, v), Pair(dangling, k'));
    hide Body, Extend, Pair;
  }

  lemma TwoPairs(fields: seq<string>, first: string, second: string)
    requires |fields| >= 4 && Pair(fields[0], fields[1]) == first && Pair(fields[2], fields[3]) == second
    ensures Body(fields, 4) == first + " " + second
  {
    hide Pair;
    assert Body(fields, 0) == "";
  }

  lemma DanglingPairs()
    ensures Pair("a", "1") == "a=1" && Pair("c", "2") == "c=2" && Pair("b", "c") == "b=c"
  {
  }

  lemma DanglingTexts()
    ensures "[" + "a=1" + " " + ("c=2" + "] ") == "[a=1 c=2] "
    ensures "[" + ("a=1" + " " + "b=c") + "] " == "[a=1 b=c] "
  {
  }

  /** traceFields: a call sees both identifiers of a span or neither. */
  predicate IsSpan(traceID: string, spanID: string) { traceID == "" <==> spanID == "" }

  /** For every span and every list of fields the two builders agree: without a span on the
      fields themselves, with one on the fields with the identifiers put first. */
  lemma BuildersAgree(traceID: string, spanID: string, fields: seq<string>)
    requires IsSpan(traceID, spanID)
    ensures traceID == "" ==> TracePrefix(traceID, spanID, fields) == Prefix(fields)
    ensures traceID != "" ==> TracePrefix(traceID, spanID, fields) == Prefix([TRACE_ID, traceID, SPAN_ID, spanID] + fields)
  {
    if traceID == "" {
      assert Lead(traceID, spanID) + fields == fields;
    } else {
      assert Lead(traceID, spanID) == [TRACE_ID, traceID, SPAN_ID, spanID];
    }
  }

  /** Chains of both kinds: WithFields(f).With(g)... collects the fields, NewLogContext(f).With(g)...
      merges prefixes.  They give the same text, the identifiers of a span being one more list
      at the front, exactly when the last list is not a lone key added to other fields. */
  lemma ChainsAgree(traceID: string, spanID: string, fs: seq<seq<string>>, last: seq<string>)
    requires IsSpan(traceID, spanID) && AllEven(fs)
    ensures var span := if traceID == "" then [] else [[TRACE_ID, traceID, SPAN_ID, spanID]];
            TracePrefix(traceID, spanID, Concat(fs) + last) == Chain(span + fs + [last])
            <==> Concat(span + fs) == [] || |last| != 1
  {
    hide TracePrefix, Prefix, Chain, Concat;
    BuildersAgree(traceID, spanID, Concat(fs) + last);
    if traceID == "" {
      assert [] + fs == fs;
      ChainIsConcatenation(fs, last);
    } else {
      var lead := [TRACE_ID, traceID, SPAN_ID, spanID];
      ConcatLead(lead, fs);
      assert AllEven([lead] + fs);
      ChainIsConcatenation([lead] + fs, last);
      assert lead + (Concat(fs) + last) == (lead + Concat(fs)) + last;
    }
  }

  lemma {:induction false} ConcatLead(lead: seq<string>, fs: seq<seq<string>>)
    ensures Concat([lead] + fs) == lead + Concat(fs)
  {
    if fs == [] {
      assert [lead][..0] == [] && [lead] + fs == [lead];
      assert Concat([lead]) == Concat([]) + lead;
    } else {
      var n := |fs| - 1;
      ConcatLead(lead, fs[..n]);
      assert ([lead] + fs)[..n + 1] == [lead] + fs[..n];
    }
  }
}
