// packages/evidence/src/canonical.ts (and the same algorithm in
// packages/database/src/audit.ts:12-40): deterministic JSON for signing and hashing.
module Canonical {
  import opened Wrappers
  import opened Text
  import opened Sorting

  // A JavaScript value. Num carries the text JSON.stringify gives the number; Bad stands
  // for what throws: functions, symbols, non-finite numbers and invalid dates.
  datatype Json =
    | Undefined | Null | Bool(b: bool) | Num(token: string) | Str(s: string) | Big(n: int) | Date(iso: string)
    | Arr(items: seq<Json>) | Obj(entries: seq<(string, Json)>) | Bad

  predicate IsNumberChar(c: char) {
    IsDigit(c) || c in {'-', '+', '.', 'e', 'E'}
  }

  predicate IsNumberToken(t: string) {
    t != "" && (IsDigit(t[0]) || t[0] == '-') && forall i :: 0 <= i < |t| ==> IsNumberChar(t[i])
  }

  predicate DistinctKeys<V>(entries: seq<(string, V)>) {
    forall i, j :: 0 <= i < j < |entries| ==> entries[i].0 != entries[j].0
  }

  // What every JavaScript value satisfies: number texts are number texts, and an object has a key once.
  predicate IsValue(v: Json) {
    match v
    case Num(t) => IsNumberToken(t)
    case Arr(items) => forall x | x in items :: IsValue(x)
    case Obj(entries) => DistinctKeys(entries) && forall x | x in entries :: IsValue(x.1)
    case _ => true
  }

  // ----- JSON.stringify on strings -----

  function EscapeChar(c: char): string {
    if c == '\"' then "\\\""
    else if c == '\\' then "\\\\"
    else if c == '\U{8}' then "\\b"
    else if c == '\U{c}' then "\\f"
    else if c == '\n' then "\\n"
    else if c == '\r' then "\\r"
    else if c == '\t' then "\\t"
    else if c < ' ' then "\\u00" + [HexChar(c as nat / 16), HexChar(c as nat % 16)]
    else [c]
  }

  function EscapeAll(s: string): string {
    if s == "" then "" else EscapeChar(s[0]) + EscapeAll(s[1..])
  }

  function Quote(s: string): string {
    "\"" + EscapeAll(s) + "\""
  }

  function ShowInt(n: int): string {
    if n < 0 then "-" + ShowNat(-n) else ShowNat(n)
  }

  // ----- the serializer -----

  predicate KeyAtMost<V>(a: (string, V), b: (string, V)) {
    AtMost(a.0, b.0)
  }

  function Defined(entries: seq<(string, Json)>): (r: seq<(string, Json)>)
    ensures forall x :: x in r ==> x in entries && !x.1.Undefined?
  {
    if entries == [] then []
    else (if entries[0].1.Undefined? then [] else [entries[0]]) + Defined(entries[1..])
  }

  lemma SortedMembers(entries: seq<(string, Json)>)
    ensures forall x :: x in SortBy(entries, KeyAtMost) ==> x in entries
  {
    forall x | x in SortBy(entries, KeyAtMost)
      ensures x in entries
    {
      assert x in multiset(SortBy(entries, KeyAtMost));
    }
  }

  function SortedEntries(entries: seq<(string, Json)>): (r: seq<(string, Json)>)
    ensures forall x :: x in r ==> x in entries && !x.1.Undefined?
  {
    var r := SortBy(Defined(entries), KeyAtMost);
    SortedMembers(Defined(entries));
    r
  }

  // Serializing throws exactly when a Bad value, or a top-level undefined, is reached.
  predicate Serializable(v: Json) {
    match v
    case Undefined => false
    case Bad => false
    case Arr(items) => forall x | x in items :: x.Undefined? || Serializable(x)
    case Obj(entries) => forall x | x in entries :: x.1.Undefined? || Serializable(x.1)
    case _ => true
  }

  function Serialize(v: Json): string
    requires Serializable(v)
    decreases v, 1
  {
    match v
    case Null => "null"
    case Str(s) => Quote(s)
    case Num(t) => t
    case Bool(b) => if b then "true" else "false"
    case Big(n) => Quote(ShowInt(n))
    case Date(iso) => Quote(iso)
    case Arr(items) => "[" + SerializeItems(v, items) + "]"
    case Obj(entries) => "{" + SerializeEntries(v, SortedEntries(entries)) + "}"
  }

  // Parts joined with ','; `whole` is the value they are parts of.
  function SerializeItems(whole: Json, items: seq<Json>): string
    requires forall x | x in items :: x < whole && (x.Undefined? || Serializable(x))
    decreases whole, 0, |items|
  {
    if items == [] then ""
    else
      assert items[0] in items && forall x :: x in items[1..] ==> x in items;
      (if items[0].Undefined? then "null" else Serialize(items[0]))
      + (if |items| == 1 then "" else "," + SerializeItems(whole, items[1..]))
  }

  function SerializeEntries(whole: Json, entries: seq<(string, Json)>): string
    requires forall x | x in entries :: x.1 < whole && Serializable(x.1)
    decreases whole, 0, |entries|
  {
    if entries == [] then ""
    else
      assert entries[0] in entries && forall x :: x in entries[1..] ==> x in entries;
      Quote(entries[0].0) + ":" + Serialize(entries[0].1)
      + (if |entries| == 1 then "" else "," + SerializeEntries(whole, entries[1..]))
  }

  function CanonicalJson(v: Json): Option<string> {
    if Serializable(v) then Some(Serialize(v)) else None
  }

  // ----- normal forms: what the text says -----

  datatype Norm =
    | NNull | NBool(b: bool) | NNum(token: string) | NStr(s: string) | NArr(items: seq<Norm>) | NObj(entries: seq<(string, Norm)>)

  function Normalize(v: Json): Norm
    requires Serializable(v)
    decreases v, 1
  {
    match v
    case Null => NNull
    case Str(s) => NStr(s)
    case Num(t) => NNum(t)
    case Bool(b) => NBool(b)
    case Big(n) => NStr(ShowInt(n))
    case Date(iso) => NStr(iso)
    case Arr(items) => NArr(NormItems(v, items))
    case Obj(entries) => NObj(NormEntries(v, SortedEntries(entries)))
  }

  function NormItems(whole: Json, items: seq<Json>): (r: seq<Norm>)
    requires forall x | x in items :: x < whole && (x.Undefined? || Serializable(x))
    ensures |r| == |items|
    decreases whole, 0, |items|
  {
    if items == [] then []
    else
      assert items[0] in items && forall x :: x in items[1..] ==> x in items;
      [if items[0].Undefined? then NNull else Normalize(items[0])] + NormItems(whole, items[1..])
  }

  function NormEntries(whole: Json, entries: seq<(string, Json)>): (r: seq<(string, Norm)>)
    requires forall x | x in entries :: x.1 < whole && Serializable(x.1)
    ensures |r| == |entries|
    ensures forall i :: 0 <= i < |entries| ==> entries[i] in entries && r[i] == (entries[i].0, Normalize(entries[i].1))
    decreases whole, 0, |entries|
  {
    hide *;
    if entries == [] then []
    else
      assert entries[0] in entries && forall x :: x in entries[1..] ==> x in entries;
      [(entries[0].0, Normalize(entries[0].1))] + NormEntries(whole, entries[1..])
  }

  // The text of a normal form; every piece after the first brings its comma.
  function Show(n: Norm): string
    decreases n, 1
  {
    match n
    case NNull => "null"
    case NBool(b) => if b then "true" else "false"
    case NNum(t) => t
    case NStr(s) => Quote(s)
    case NArr(items) => "[" + (if items == [] then "" else Show(items[0]) + ShowTail(items[1..])) + "]"
    case NObj(entries) => "{" + (if entries == [] then "" else ShowEntry(entries[0]) + ShowEntryTail(entries[1..])) + "}"
  }

  function ShowTail(items: seq<Norm>): string
    decreases items, 0
  {
    if items == [] then "" else "," + Show(items[0]) + ShowTail(items[1..])
  }

  function ShowEntry(x: (string, Norm)): string
    decreases x, 2
  {
    Quote(x.0) + ":" + Show(x.1)
  }

  function ShowEntryTail(entries: seq<(string, Norm)>): string
    decreases entries, 0
  {
    if entries == [] then "" else "," + ShowEntry(entries[0]) + ShowEntryTail(entries[1..])
  }

  // ----- the serializer writes the normal form -----

  lemma {:induction false} SerializeShows(v: Json)
    requires Serializable(v)
    ensures Serialize(v) == Show(Normalize(v))
    decreases v, 1
  {
    match v
    case Arr(items) => ItemsShow(v, items);
    case Obj(entries) => EntriesShow(v, SortedEntries(entries));
    case _ =>
  }

  lemma {:induction false} ItemsShow(whole: Json, items: seq<Json>)
    requires forall x | x in items :: x < whole && (x.Undefined? || Serializable(x))
    ensures var ns := NormItems(whole, items);
            SerializeItems(whole, items) == if items == [] then "" else Show(ns[0]) + ShowTail(ns[1..])
    decreases whole, 0, |items|
  {
    if items != [] {
      var first, rest := items[0], items[1..];
      var text := if first.Undefined? then "null" else Serialize(first);
      assert text == Show(if first.Undefined? then NNull else Normalize(first)) by {
        if !first.Undefined? { SerializeShows(first); }
      }
      RestOk(whole, items);
      hide Serialize, Normalize, Serializable, Show;
      ItemsShow(whole, rest);
      var ns, tail := NormItems(whole, items), NormItems(whole, rest);
      assert ns[1..] == tail;
      assert SerializeItems(whole, items) == text + if |items| == 1 then "" else "," + SerializeItems(whole, rest);
      TailText(tail);
    }
  }

  lemma RestOk(whole: Json, items: seq<Json>)
    requires items != [] && forall x | x in items :: x < whole && (x.Undefined? || Serializable(x))
    ensures forall x | x in items[1..] :: x < whole && (x.Undefined? || Serializable(x))
  {
    forall x | x in items[1..]
      ensures x in items
    {
    }
  }

  lemma TailText(ns: seq<Norm>)
    ensures ShowTail(ns) == if ns == [] then "" else "," + (Show(ns[0]) + ShowTail(ns[1..]))
  {
  }

  lemma EntryTailText(ns: seq<(string, Norm)>)
    ensures ShowEntryTail(ns) == if ns == [] then "" else "," + (ShowEntry(ns[0]) + ShowEntryTail(ns[1..]))
  {
    hide ShowEntry;
  }

  lemma EntryText(whole: Json, entries: seq<(string, Json)>)
    requires entries != [] && forall x | x in entries :: x.1 < whole && Serializable(x.1)
    ensures entries[0] in entries && forall x | x in entries[1..] :: x.1 < whole && Serializable(x.1)
    ensures SerializeEntries(whole, entries) ==
            Quote(entries[0].0) + ":" + Serialize(entries[0].1)
            + if |entries| == 1 then "" else "," + SerializeEntries(whole, entries[1..])
  {
    assert entries[0] in entries;
    forall x | x in entries[1..]
      ensures x in entries
    {
    }
    hide Serialize, Serializable, Quote;
  }

  lemma {:induction false} EntriesShow(whole: Json, entries: seq<(string, Json)>)
    requires forall x | x in entries :: x.1 < whole && Serializable(x.1)
    ensures var ns := NormEntries(whole, entries);
            SerializeEntries(whole, entries) == if entries == [] then "" else ShowEntry(ns[0]) + ShowEntryTail(ns[1..])
    decreases whole, 0, |entries|
  {
    if entries != [] {
      var rest := entries[1..];
      EntryText(whole, entries);
      SerializeShows(entries[0].1);
      var ns := NormEntries(whole, entries);
      assert ShowEntry(ns[0]) == Quote(entries[0].0) + ":" + Serialize(entries[0].1);
      hide Serialize, Normalize, Serializable, Show, ShowEntry, Quote;
      EntriesShow(whole, rest);
      assert ns[1..] == NormEntries(whole, rest);
      EntryTailText(ns[1..]);
      hide SerializeEntries;
    }
  }

  // ----- the text determines the normal form -----

  predicate IsNorm(n: Norm) {
    match n
    case NNum(t) => IsNumberToken(t)
    case NArr(items) => forall x | x in items :: IsNorm(x)
    case NObj(entries) => forall x | x in entries :: IsNorm(x.1)
    case _ => true
  }

  // What may follow a value inside a text.
  predicate Ends(x: string) {
    x != "" ==> x[0] in {',', ']', '}'}
  }

  // Cutting equal concatenations at pieces of equal length.
  lemma Cut(a: string, x: string, b: string, y: string)
    requires a + x == b + y && |a| == |b|
    ensures a == b && x == y
  {
    assert a == (a + x)[..|a|] && b == (b + y)[..|b|];
    assert x == (a + x)[|a|..] && y == (b + y)[|b|..];
  }

  // Characters at the front of s that can belong to a number.
  function NumberRun(s: string): nat {
    if s == "" || !IsNumberChar(s[0]) then 0 else 1 + NumberRun(s[1..])
  }

  lemma {:induction false} NumberRunAt(t: string, x: string)
    requires (forall i :: 0 <= i < |t| ==> IsNumberChar(t[i])) && Ends(x)
    ensures NumberRun(t + x) == |t|
  {
    if t != "" {
      NumberRunAt(t[1..], x);
      assert (t + x)[1..] == t[1..] + x;
    } else {
      assert t + x == x;
    }
  }

  lemma EscapeCharInjective(c: char, x: string, d: char, y: string)
    requires EscapeChar(c) + x == EscapeChar(d) + y
    ensures c == d && x == y
  {
    var s := EscapeChar(c) + x;
    assert s[0] == EscapeChar(c)[0] == EscapeChar(d)[0];
    if s[0] == '\\' {
      assert s[1] == EscapeChar(c)[1] == EscapeChar(d)[1];
      if s[1] == 'u' {
        assert s[4] == EscapeChar(c)[4] == EscapeChar(d)[4];
        assert s[5] == EscapeChar(c)[5] == EscapeChar(d)[5];
        assert c as nat == (c as nat / 16) * 16 + c as nat % 16;
      }
    }
    Cut(EscapeChar(c), x, EscapeChar(d), y);
  }

  lemma EscapeNeverQuote(c: char)
    ensures EscapeChar(c) != "" && EscapeChar(c)[0] != '\"'
  {
  }

  lemma EscapedLead(s: string, x: string)
    ensures s == "" <==> (EscapeAll(s) + "\"" + x)[0] == '\"'
  {
    if s != "" {
      EscapeNeverQuote(s[0]);
      assert (EscapeAll(s) + "\"" + x)[0] == EscapeChar(s[0])[0];
    }
  }

  lemma EscapedSplit(s: string, x: string)
    requires s != ""
    ensures EscapeAll(s) + "\"" + x == EscapeChar(s[0]) + (EscapeAll(s[1..]) + "\"" + x)
  {
  }

  lemma {:induction false} EscapedInjective(s: string, x: string, t: string, y: string)
    requires EscapeAll(s) + "\"" + x == EscapeAll(t) + "\"" + y
    ensures s == t && x == y
  {
    EscapedLead(s, x);
    EscapedLead(t, y);
    if s == "" {
      assert "" + "\"" + x == "\"" + x && "" + "\"" + y == "\"" + y;
      Cut("\"", x, "\"", y);
    } else {
      hide EscapeChar, EscapeAll;
      EscapedSplit(s, x);
      EscapedSplit(t, y);
      EscapeCharInjective(s[0], EscapeAll(s[1..]) + "\"" + x, t[0], EscapeAll(t[1..]) + "\"" + y);
      EscapedInjective(s[1..], x, t[1..], y);
      assert s == [s[0]] + s[1..] && t == [t[0]] + t[1..];
    }
  }

  lemma QuoteInjective(s: string, x: string, t: string, y: string)
    requires Quote(s) + x == Quote(t) + y
    ensures s == t && x == y
  {
    var p, q := EscapeAll(s) + "\"" + x, EscapeAll(t) + "\"" + y;
    assert Quote(s) + x == "\"" + p && Quote(t) + y == "\"" + q;
    Cut("\"", p, "\"", q);
    EscapedInjective(s, x, t, y);
  }

  // The first character tells the kind of value.
  function Lead(n: Norm): char
    requires IsNorm(n)
  {
    match n
    case NNull => 'n'
    case NBool(b) => if b then 't' else 'f'
    case NNum(t) => t[0]
    case NStr(_) => '\"'
    case NArr(_) => '['
    case NObj(_) => '{'
  }

  lemma LeadsWith(n: Norm, x: string)
    requires IsNorm(n)
    ensures Show(n) != "" && (Show(n) + x)[0] == Lead(n)
    ensures Lead(n) !in {',', ']', '}'}
  {
  }

  lemma {:induction false} ShowInjective(a: Norm, x: string, b: Norm, y: string)
    requires IsNorm(a) && IsNorm(b) && Ends(x) && Ends(y)
    requires Show(a) + x == Show(b) + y
    ensures a == b && x == y
    decreases a, 2
  {
    LeadsWith(a, x);
    LeadsWith(b, y);
    assert Lead(a) == Lead(b);
    match a
    case NStr(s) => QuoteInjective(s, x, b.s, y);
    case NNum(t) =>
      NumberRunAt(t, x);
      NumberRunAt(b.token, y);
      Cut(t, x, b.token, y);
    case NArr(items) => ArraysInjective(items, x, b.items, y);
    case NObj(entries) => ObjectsInjective(entries, x, b.entries, y);
    case _ => Cut(Show(a), x, Show(b), y);
  }

  // An element list up to its closing bracket, told apart from the empty one by its first character.
  lemma ItemsLead(p: seq<Norm>, x: string)
    requires forall n | n in p :: IsNorm(n)
    ensures p == [] <==> ((if p == [] then "" else Show(p[0]) + ShowTail(p[1..])) + "]" + x)[0] == ']'
  {
    if p != [] {
      LeadsWith(p[0], ShowTail(p[1..]) + "]" + x);
      assert Show(p[0]) + ShowTail(p[1..]) + "]" + x == Show(p[0]) + (ShowTail(p[1..]) + "]" + x);
    }
  }

  lemma {:induction false} ArraysInjective(p: seq<Norm>, x: string, q: seq<Norm>, y: string)
    requires (forall n | n in p :: IsNorm(n)) && (forall n | n in q :: IsNorm(n))
    requires Show(NArr(p)) + x == Show(NArr(q)) + y
    ensures p == q && x == y
    decreases p, 1
  {
    var s, t := if p == [] then "" else Show(p[0]) + ShowTail(p[1..]), if q == [] then "" else Show(q[0]) + ShowTail(q[1..]);
    assert Show(NArr(p)) + x == "[" + (s + "]" + x) && Show(NArr(q)) + y == "[" + (t + "]" + y);
    Cut("[", s + "]" + x, "[", t + "]" + y);
    ItemsLead(p, x);
    ItemsLead(q, y);
    if p == [] {
      assert s + "]" + x == "]" + x && t + "]" + y == "]" + y;
      Cut("]", x, "]", y);
    } else {
      ItemsInjective(p, x, q, y);
    }
  }

  lemma TailEnds(p: seq<Norm>, x: string)
    ensures Ends(ShowTail(p) + "]" + x)
    ensures p == [] <==> (ShowTail(p) + "]" + x)[0] == ']'
  {
  }

  lemma {:induction false} ItemsInjective(p: seq<Norm>, x: string, q: seq<Norm>, y: string)
    requires p != [] && q != []
    requires (forall n | n in p :: IsNorm(n)) && (forall n | n in q :: IsNorm(n))
    requires Show(p[0]) + ShowTail(p[1..]) + "]" + x == Show(q[0]) + ShowTail(q[1..]) + "]" + y
    ensures p == q && x == y
    decreases p, 0
  {
    hide Show;
    var u, v := ShowTail(p[1..]) + "]" + x, ShowTail(q[1..]) + "]" + y;
    assert Show(p[0]) + u == Show(q[0]) + v by {
      assert Show(p[0]) + ShowTail(p[1..]) + "]" + x == Show(p[0]) + u;
      assert Show(q[0]) + ShowTail(q[1..]) + "]" + y == Show(q[0]) + v;
    }
    TailEnds(p[1..], x);
    TailEnds(q[1..], y);
    ShowInjective(p[0], u, q[0], v);
    if p[1..] == [] {
      assert u == "]" + x && v == "]" + y;
      Cut("]", x, "]", y);
    } else {
      var a, b := Show(p[1]) + ShowTail(p[2..]) + "]" + x, Show(q[1]) + ShowTail(q[2..]) + "]" + y;
      assert p[1..][1..] == p[2..] && q[1..][1..] == q[2..];
      assert u == "," + a && v == "," + b;
      Cut(",", a, ",", b);
      ItemsInjective(p[1..], x, q[1..], y);
    }
    assert p == [p[0]] + p[1..] && q == [q[0]] + q[1..];
  }

  lemma {:induction false} EntryInjective(e: (string, Norm), x: string, f: (string, Norm), y: string)
    requires IsNorm(e.1) && IsNorm(f.1) && Ends(x) && Ends(y)
    requires ShowEntry(e) + x == ShowEntry(f) + y
    ensures e == f && x == y
    decreases e, 3
  {
    hide Quote, Show;
    var u, v := Show(e.1) + x, Show(f.1) + y;
    assert ShowEntry(e) + x == Quote(e.0) + (":" + u) && ShowEntry(f) + y == Quote(f.0) + (":" + v);
    QuoteInjective(e.0, ":" + u, f.0, ":" + v);
    Cut(":", u, ":", v);
    ShowInjective(e.1, x, f.1, y);
  }

  lemma EntriesLead(p: seq<(string, Norm)>, x: string)
    ensures p == [] <==> ((if p == [] then "" else ShowEntry(p[0]) + ShowEntryTail(p[1..])) + "}" + x)[0] == '}'
  {
    if p != [] {
      assert (ShowEntry(p[0]) + ShowEntryTail(p[1..]) + "}" + x)[0] == Quote(p[0].0)[0];
    }
  }

  lemma EntryTailEnds(p: seq<(string, Norm)>, x: string)
    ensures Ends(ShowEntryTail(p) + "}" + x)
    ensures p == [] <==> (ShowEntryTail(p) + "}" + x)[0] == '}'
  {
  }

  lemma {:induction false} ObjectsInjective(p: seq<(string, Norm)>, x: string, q: seq<(string, Norm)>, y: string)
    requires (forall e | e in p :: IsNorm(e.1)) && (forall e | e in q :: IsNorm(e.1))
    requires Show(NObj(p)) + x == Show(NObj(q)) + y
    ensures p == q && x == y
    decreases p, 1
  {
    hide ShowEntry;
    var s, t := if p == [] then "" else ShowEntry(p[0]) + ShowEntryTail(p[1..]), if q == [] then "" else ShowEntry(q[0]) + ShowEntryTail(q[1..]);
    assert Show(NObj(p)) + x == "{" + (s + "}" + x) && Show(NObj(q)) + y == "{" + (t + "}" + y);
    Cut("{", s + "}" + x, "{", t + "}" + y);
    EntriesLead(p, x);
    EntriesLead(q, y);
    if p == [] {
      assert s + "}" + x == "}" + x && t + "}" + y == "}" + y;
      Cut("}", x, "}", y);
    } else {
      EntriesInjective(p, x, q, y);
    }
  }

  lemma {:induction false} EntriesInjective(p: seq<(string, Norm)>, x: string, q: seq<(string, Norm)>, y: string)
    requires p != [] && q != []
    requires (forall e | e in p :: IsNorm(e.1)) && (forall e | e in q :: IsNorm(e.1))
    requires ShowEntry(p[0]) + ShowEntryTail(p[1..]) + "}" + x == ShowEntry(q[0]) + ShowEntryTail(q[1..]) + "}" + y
    ensures p == q && x == y
    decreases p, 0
  {
    hide ShowEntry;
    var u, v := ShowEntryTail(p[1..]) + "}" + x, ShowEntryTail(q[1..]) + "}" + y;
    assert ShowEntry(p[0]) + u == ShowEntry(q[0]) + v by {
      assert ShowEntry(p[0]) + ShowEntryTail(p[1..]) + "}" + x == ShowEntry(p[0]) + u;
      assert ShowEntry(q[0]) + ShowEntryTail(q[1..]) + "}" + y == ShowEntry(q[0]) + v;
    }
    EntryTailEnds(p[1..], x);
    EntryTailEnds(q[1..], y);
    EntryInjective(p[0], u, q[0], v);
    if p[1..] == [] {
      assert u == "}" + x && v == "}" + y;
      Cut("}", x, "}", y);
    } else {
      var a, b := ShowEntry(p[1]) + ShowEntryTail(p[2..]) + "}" + x, ShowEntry(q[1]) + ShowEntryTail(q[2..]) + "}" + y;
      assert p[1..][1..] == p[2..] && q[1..][1..] == q[2..];
      assert u == "," + a && v == "," + b;
      Cut(",", a, ",", b);
      EntriesInjective(p[1..], x, q[1..], y);
    }
    assert p == [p[0]] + p[1..] && q == [q[0]] + q[1..];
  }

  lemma {:induction false} NormalizeIsNorm(v: Json)
    requires Serializable(v) && IsValue(v)
    ensures IsNorm(Normalize(v))
    decreases v, 1
  {
    match v
    case Arr(items) => ItemsAreNorm(v, items);
    case Obj(entries) =>
      var sorted := SortedEntries(entries);
      var ns := NormEntries(v, sorted);
      forall x | x in ns
        ensures IsNorm(x.1)
      {
        var i :| 0 <= i < |ns| && ns[i] == x;
        assert sorted[i] in sorted;
        NormalizeIsNorm(sorted[i].1);
      }
    case _ =>
  }

  lemma {:induction false} ItemsAreNorm(whole: Json, items: seq<Json>)
    requires forall x | x in items :: x < whole && IsValue(x) && (x.Undefined? || Serializable(x))
    ensures forall n | n in NormItems(whole, items) :: IsNorm(n)
    decreases whole, 0, |items|
  {
    if items != [] {
      if !items[0].Undefined? { NormalizeIsNorm(items[0]); }
      forall x | x in items[1..]
        ensures x in items
      {
      }
      ItemsAreNorm(whole, items[1..]);
    }
  }

  // Two values have the same canonical text exactly when they have the same normal form.
  lemma CanonicalExactly(v: Json, w: Json)
    requires IsValue(v) && IsValue(w)
    requires CanonicalJson(v).Some? && CanonicalJson(w).Some?
    ensures CanonicalJson(v) == CanonicalJson(w) <==> Normalize(v) == Normalize(w)
  {
    SerializeShows(v);
    SerializeShows(w);
    NormalizeIsNorm(v);
    NormalizeIsNorm(w);
    if Serialize(v) == Serialize(w) {
      assert Show(Normalize(v)) + "" == Show(Normalize(w)) + "";
      ShowInjective(Normalize(v), "", Normalize(w), "");
    }
  }

  // ----- objects as sets of fields -----

  // The value an object has under a key, when it is not undefined.
  function Field(entries: seq<(string, Json)>, key: string): (r: Option<Json>)
    ensures r.Some? ==> (key, r.value) in entries && !r.value.Undefined?
  {
    if entries == [] then None
    else if entries[0].0 == key && !entries[0].1.Undefined? then Some(entries[0].1)
    else Field(entries[1..], key)
  }

  lemma {:induction false} FieldOf(entries: seq<(string, Json)>, x: (string, Json))
    requires DistinctKeys(entries)
    ensures x in Defined(entries) <==> !x.1.Undefined? && x in entries
    ensures x in Defined(entries) ==> Field(entries, x.0) == Some(x.1)
  {
    if entries != [] {
      var rest := entries[1..];
      FieldOf(rest, x);
      assert entries == [entries[0]] + rest;
      if x in Defined(entries) && x != entries[0] {
        assert x in rest;
        var i :| 0 <= i < |rest| && rest[i] == x;
        assert entries[i + 1] == x;
      }
    }
  }

  // Two objects agree field by field, up to normal form.
  ghost predicate SameFields(p: seq<(string, Json)>, q: seq<(string, Json)>)
    requires Serializable(Obj(p)) && Serializable(Obj(q))
  {
    forall key ::
      var a, b := Field(p, key), Field(q, key);
      (a.Some? <==> b.Some?) && (a.Some? && b.Some? ==> Normalize(a.value) == Normalize(b.value))
  }

  function Keys<V>(s: seq<(string, V)>): (ks: seq<string>)
    ensures |ks| == |s| && forall i :: 0 <= i < |s| ==> ks[i] == s[i].0
  {
    seq(|s|, i requires 0 <= i < |s| => s[i].0)
  }

  lemma KeyOrder()
    ensures TotalPreorder<(string, Json)>(KeyAtMost)
    ensures TotalPreorder(AtMost) && forall s: seq<string> :: Separates(s, AtMost)
  {
    AtMostOrders();
    hide AtMost;
  }

  lemma {:induction false} DefinedDistinct(entries: seq<(string, Json)>)
    requires DistinctKeys(entries)
    ensures DistinctKeys(Defined(entries))
  {
    if entries != [] {
      DefinedDistinct(entries[1..]);
      forall x | x in Defined(entries[1..])
        ensures x.0 != entries[0].0
      {
        var i :| 0 <= i < |entries[1..]| && entries[1..][i] == x;
        assert entries[i + 1] == x;
      }
    }
  }

  // Sorting keeps the entries and makes their keys a strictly increasing list.
  lemma SortedFacts(entries: seq<(string, Json)>)
    requires DistinctKeys(entries)
    ensures var s := SortedEntries(entries);
            && Sorted(Keys(s), AtMost) && multiset(s) == multiset(Defined(entries))
            && forall x :: x in s <==> x in entries && !x.1.Undefined?
  {
    var s := SortedEntries(entries);
    KeyOrder();
    SortBySorted(Defined(entries), KeyAtMost);
    MultisetMembers(s, Defined(entries));
    forall x: (string, Json)
      ensures x in s <==> x in entries && !x.1.Undefined?
    {
      FieldOf(entries, x);
      assert x in s <==> x in multiset(s);
      assert x in Defined(entries) <==> x in multiset(Defined(entries));
    }
  }

  lemma SortedDistinct(entries: seq<(string, Json)>)
    requires DistinctKeys(entries)
    ensures DistinctKeys(SortedEntries(entries)) && Unique(Keys(SortedEntries(entries)))
  {
    var s, d := SortedEntries(entries), Defined(entries);
    DefinedDistinct(entries);
    SortedFacts(entries);
    assert Unique(d);
    UniquePermuted(d, s);
    forall i, j | 0 <= i < j < |s|
      ensures s[i].0 != s[j].0
    {
      assert s[i] in s && s[j] in s;
      FieldOf(entries, s[i]);
      FieldOf(entries, s[j]);
    }
  }

  // Where a key stands among the sorted entries.
  lemma SortedFind(entries: seq<(string, Json)>, key: string) returns (i: nat)
    requires DistinctKeys(entries) && Field(entries, key).Some?
    ensures i < |SortedEntries(entries)| && SortedEntries(entries)[i] == (key, Field(entries, key).value)
  {
    SortedFacts(entries);
    var x := (key, Field(entries, key).value);
    assert x in SortedEntries(entries);
    i :| 0 <= i < |SortedEntries(entries)| && SortedEntries(entries)[i] == x;
  }

  lemma KeysAre(entries: seq<(string, Json)>)
    requires DistinctKeys(entries)
    ensures forall key :: key in Keys(SortedEntries(entries)) <==> Field(entries, key).Some?
  {
    var s := SortedEntries(entries);
    forall key
      ensures key in Keys(s) <==> Field(entries, key).Some?
    {
      if Field(entries, key).Some? {
        var i := SortedFind(entries, key);
        assert Keys(s)[i] == key;
      }
      if key in Keys(s) {
        var i :| 0 <= i < |s| && Keys(s)[i] == key;
        SortedFacts(entries);
        assert s[i] in s;
        FieldOf(entries, s[i]);
      }
    }
  }

  lemma SameKeysSorted(p: seq<(string, Json)>, q: seq<(string, Json)>)
    requires DistinctKeys(p) && DistinctKeys(q)
    requires forall key :: Field(p, key).Some? <==> Field(q, key).Some?
    ensures Keys(SortedEntries(p)) == Keys(SortedEntries(q))
  {
    var k, l := Keys(SortedEntries(p)), Keys(SortedEntries(q));
    KeysAre(p);
    KeysAre(q);
    SortedDistinct(p);
    SortedDistinct(q);
    SortedFacts(p);
    SortedFacts(q);
    UniqueSameElements(k, l);
    KeyOrder();
    assert Separates(k, AtMost);
    SortedUnique(k, l, AtMost);
  }

  lemma EntryAt(entries: seq<(string, Json)>, i: nat)
    requires DistinctKeys(entries) && i < |SortedEntries(entries)|
    ensures var x := SortedEntries(entries)[i];
            !x.1.Undefined? && Field(entries, x.0) == Some(x.1)
  {
    SortedFacts(entries);
    var x := SortedEntries(entries)[i];
    assert x in SortedEntries(entries);
    FieldOf(entries, x);
  }

  lemma SameFieldsNorm(p: seq<(string, Json)>, q: seq<(string, Json)>)
    requires Serializable(Obj(p)) && Serializable(Obj(q)) && DistinctKeys(p) && DistinctKeys(q)
    requires SameFields(p, q)
    ensures Normalize(Obj(p)) == Normalize(Obj(q))
  {
    var s, t := SortedEntries(p), SortedEntries(q);
    var m, n := NormEntries(Obj(p), s), NormEntries(Obj(q), t);
    assert Normalize(Obj(p)) == NObj(m) && Normalize(Obj(q)) == NObj(n);
    SameKeysSorted(p, q);
    assert |Keys(s)| == |Keys(t)|;
    hide NormEntries, Normalize, SortedEntries, Serializable, Field, DistinctKeys;
    forall i | 0 <= i < |m|
      ensures m[i] == n[i]
    {
      assert Keys(s)[i] == Keys(t)[i];
      EntryAt(p, i);
      EntryAt(q, i);
    }
    assert m == n;
  }

  // An object is its fields: the order in which they were written plays no part.
  lemma ObjectsAreFieldSets(p: seq<(string, Json)>, q: seq<(string, Json)>)
    requires Serializable(Obj(p)) && Serializable(Obj(q)) && DistinctKeys(p) && DistinctKeys(q)
    ensures Normalize(Obj(p)) == Normalize(Obj(q)) <==> SameFields(p, q)
  {
    hide NormEntries, Normalize, SortedEntries, Serializable, Field, DistinctKeys;
    if SameFields(p, q) { SameFieldsNorm(p, q); }
    if Normalize(Obj(p)) == Normalize(Obj(q)) {
      SameNormFields(p, q);
      SameNormFields(q, p);
    }
  }

  lemma SameNormFields(p: seq<(string, Json)>, q: seq<(string, Json)>)
    requires Serializable(Obj(p)) && Serializable(Obj(q)) && DistinctKeys(p) && DistinctKeys(q)
    requires Normalize(Obj(p)) == Normalize(Obj(q))
    ensures forall key :: Field(p, key).Some? ==>
              Field(q, key).Some? && Normalize(Field(p, key).value) == Normalize(Field(q, key).value)
  {
    var s, t := SortedEntries(p), SortedEntries(q);
    forall key | Field(p, key).Some?
      ensures Field(q, key).Some? && Normalize(Field(p, key).value) == Normalize(Field(q, key).value)
    {
      var i := SortedFind(p, key);
      var m, n := NormEntries(Obj(p), s), NormEntries(Obj(q), t);
      assert m[i] == n[i];
      EntryAt(q, i);
    }
  }

  // Writing the fields of an object in another order leaves the text unchanged.
  lemma KeyOrderFree(p: seq<(string, Json)>, q: seq<(string, Json)>)
    requires DistinctKeys(p) && multiset(p) == multiset(q) && Serializable(Obj(p))
    ensures Serializable(Obj(q)) && Serialize(Obj(p)) == Serialize(Obj(q))
  {
    MultisetMembers(p, q);
    UniquePermuted(p, q);
    forall i, j | 0 <= i < j < |q|
      ensures q[i].0 != q[j].0
    {
      assert q[i] in p && q[j] in p;
      var a :| 0 <= a < |p| && p[a] == q[i];
      var b :| 0 <= b < |p| && p[b] == q[j];
      assert q[i] != q[j];
    }
    forall key
      ensures Field(p, key) == Field(q, key)
    {
      if Field(p, key).Some? { FieldOf(q, (key, Field(p, key).value)); }
      if Field(q, key).Some? { FieldOf(p, (key, Field(q, key).value)); }
    }
    assert SameFields(p, q);
    ObjectsAreFieldSets(p, q);
    SerializeShows(Obj(p));
    SerializeShows(Obj(q));
  }
}
