/**
 The canonical form of JSON that is hashed for attestations and signed for quotes: two values
 have the same form exactly when they are equal up to the order of object members.
 */
module CanonicalJson {
  import opened JsonText

  /** What `JSON.stringify` prints for a number: a non-empty run of digits, signs, point and exponent. */
  predicate IsNumberUnit(u: CodeUnit) {
    0x30 <= u <= 0x39 || u == 0x2b || u == 0x2d || u == 0x2e || u == 0x45 || u == 0x65
  }

  predicate IsNumberToken(t: Text) {
    && t != [] && (0x30 <= t[0] <= 0x39 || t[0] == 0x2d)
    && forall i :: 0 <= i < |t| ==> IsNumberUnit(t[i])
  }

  type Token = t: Text | IsNumberToken(t) witness [0x30]

  /** A JSON value; an object's members may be undefined, and come in whatever order they were added. */
  datatype Json =
    | Null
    | Boolean(b: bool)
    | Number(token: Token)
    | String(text: Text)
    | Array(items: seq<Json>)
    | Object(members: seq<Member>)

  datatype Member = Member(key: Text, value: Slot)

  datatype Slot = Undefined | Defined(value: Json)

  /** Objects never hold a key twice. */
  predicate UniqueKeys(members: seq<Member>) {
    forall i, j :: 0 <= i < j < |members| ==> members[i].key != members[j].key
  }

  predicate WellFormed(v: Json) {
    match v
    case Array(items) => forall i :: 0 <= i < |items| ==> WellFormed(items[i])
    case Object(members) =>
      UniqueKeys(members) && forall i :: 0 <= i < |members| && members[i].value.Defined? ==> WellFormed(members[i].value.value)
    case _ => true
  }

  /* ------------------------------ ordering members ------------------------------ */

  /** `<` on strings: by code units, a proper prefix first. */
  predicate Below(a: Text, b: Text) {
    if b == [] then false
    else if a == [] then true
    else a[0] < b[0] || (a[0] == b[0] && Below(a[1..], b[1..]))
  }

  lemma {:induction false} BelowIsStrict(a: Text)
    ensures !Below(a, a)
  {
    if a != [] {
      BelowIsStrict(a[1..]);
    }
  }

  lemma {:induction false} BelowIsTotal(a: Text, b: Text)
    ensures Below(a, b) || Below(b, a) || a == b
    ensures !(Below(a, b) && Below(b, a))
  {
    if a != [] && b != [] {
      BelowIsTotal(a[1..], b[1..]);
      assert a == [a[0]] + a[1..] && b == [b[0]] + b[1..];
    }
  }

  lemma {:induction false} BelowIsTransitive(a: Text, b: Text, c: Text)
    requires Below(a, b) && Below(b, c)
    ensures Below(a, c)
  {
    if a != [] && a[0] == b[0] == c[0] {
      BelowIsTransitive(a[1..], b[1..], c[1..]);
    }
  }

  /**
   The order of code units, written out: the two agree up to some place, where the first has ended
   and the second goes on, or both go on and the first has the smaller unit.
   */
  ghost predicate ComesFirst(a: Text, b: Text) {
    exists k :: 0 <= k <= |a| && k < |b| && a[..k] == b[..k] && (k == |a| || a[k] < b[k])
  }

  lemma {:induction false} BelowComesFirst(a: Text, b: Text)
    ensures Below(a, b) ==> ComesFirst(a, b)
  {
    if Below(a, b) {
      if a == [] || a[0] < b[0] {
        assert a[..0] == b[..0];
      } else {
        BelowComesFirst(a[1..], b[1..]);
        var k :| 0 <= k <= |a[1..]| && k < |b[1..]| && a[1..][..k] == b[1..][..k] && (k == |a[1..]| || a[1..][k] < b[1..][k]);
        assert a[..k + 1] == [a[0]] + a[1..][..k] && b[..k + 1] == [b[0]] + b[1..][..k];
      }
    }
  }

  lemma {:induction false} ComesFirstIsBelow(a: Text, b: Text, k: nat)
    requires k <= |a| && k < |b| && a[..k] == b[..k] && (k == |a| || a[k] < b[k])
    ensures Below(a, b)
  {
    if 0 < k {
      assert a[0] == a[..k][0] == b[..k][0] == b[0];
      assert a[1..][..k - 1] == a[..k][1..] && b[1..][..k - 1] == b[..k][1..];
      ComesFirstIsBelow(a[1..], b[1..], k - 1);
    }
  }

  predicate Ascending(members: seq<Member>) {
    forall i, j :: 0 <= i < j < |members| ==> Below(members[i].key, members[j].key)
  }

  /** `filter` on members that are defined. */
  function OnlyDefined(members: seq<Member>): (r: seq<Member>)
    ensures forall m :: m in r <==> m in members && m.value.Defined?
  {
    if members == [] then []
    else
      var init, last := members[..|members| - 1], members[|members| - 1];
      assert members == init + [last];
      OnlyDefined(init) + if last.value.Defined? then [last] else []
  }

  function Insert(members: seq<Member>, m: Member): (r: seq<Member>)
    ensures forall n :: n in r <==> n in members || n == m
  {
    if members == [] || Below(m.key, members[0].key) then [m] + members
    else
      var rest := Insert(members[1..], m);
      assert members == [members[0]] + members[1..];
      [members[0]] + rest
  }

  /** `sort` by key. */
  function SortByKey(members: seq<Member>): (r: seq<Member>)
    ensures forall m :: m in r <==> m in members
  {
    if members == [] then []
    else
      assert members == members[..|members| - 1] + [members[|members| - 1]];
      Insert(SortByKey(members[..|members| - 1]), members[|members| - 1])
  }

  lemma {:induction false} InsertAscends(members: seq<Member>, m: Member)
    requires Ascending(members) && forall n :: n in members ==> n.key != m.key
    ensures Ascending(Insert(members, m))
  {
    if members != [] {
      if Below(m.key, members[0].key) {
        forall j | 0 <= j < |members| ensures Below(m.key, members[j].key) {
          if j != 0 {
            BelowIsTransitive(m.key, members[0].key, members[j].key);
          }
        }
      } else {
        BelowIsTotal(m.key, members[0].key);
        assert members[0] in members;
        InsertAscends(members[1..], m);
        var rest := Insert(members[1..], m);
        forall j | 0 <= j < |rest| ensures Below(members[0].key, rest[j].key) {
          assert rest[j] in rest;
        }
      }
    }
  }

  lemma {:induction false} SortIsAscending(members: seq<Member>)
    requires UniqueKeys(members)
    ensures Ascending(SortByKey(members))
  {
    if members != [] {
      var init, last := members[..|members| - 1], members[|members| - 1];
      SortIsAscending(init);
      forall n | n in SortByKey(init) ensures n.key != last.key {
        assert n in init;
      }
      InsertAscends(SortByKey(init), last);
    }
  }

  /** Sorting puts the key that comes first first, and keeps every member. */
  lemma SortAscends(members: seq<Member>)
    requires UniqueKeys(members)
    ensures var sorted := SortByKey(members);
            && (forall m :: m in sorted <==> m in members)
            && (forall i, j :: 0 <= i < j < |sorted| ==> ComesFirst(sorted[i].key, sorted[j].key))
  {
    SortIsAscending(members);
    var sorted := SortByKey(members);
    forall i, j | 0 <= i < j < |sorted| ensures ComesFirst(sorted[i].key, sorted[j].key) {
      BelowComesFirst(sorted[i].key, sorted[j].key);
    }
  }

  /** The entries an object is printed from. */
  function Entries(members: seq<Member>): (r: seq<Member>)
    ensures forall m :: m in r <==> m in members && m.value.Defined?
  {
    SortByKey(OnlyDefined(members))
  }

  lemma {:induction false} FilterKeepsUnique(members: seq<Member>)
    requires UniqueKeys(members)
    ensures UniqueKeys(OnlyDefined(members))
  {
    if members != [] {
      var init, last := members[..|members| - 1], members[|members| - 1];
      FilterKeepsUnique(init);
      var kept := OnlyDefined(init);
      forall i | 0 <= i < |kept| ensures kept[i].key != last.key {
        assert kept[i] in init;
      }
    }
  }

  lemma EntriesAscend(members: seq<Member>)
    requires UniqueKeys(members)
    ensures Ascending(Entries(members))
  {
    FilterKeepsUnique(members);
    SortIsAscending(OnlyDefined(members));
  }

  /* ------------------------------ printing ------------------------------ */

  /** `join(',')`. */
  function CommaJoin(texts: seq<Text>): Text {
    if texts == [] then []
    else if |texts| == 1 then texts[0]
    else texts[0] + [COMMA] + CommaJoin(texts[1..])
  }

  const TRUE: Text := [0x74, 0x72, 0x75, 0x65]
  const FALSE: Text := [0x66, 0x61, 0x6c, 0x73, 0x65]
  const NULL: Text := [0x6e, 0x75, 0x6c, 0x6c]

  function Canonicalize(v: Json): Text
    decreases v, 1
  {
    match v
    case Null => NULL
    case Boolean(b) => if b then TRUE else FALSE
    case Number(token) => token
    case String(text) => Quote(text)
    case Array(items) => [LEFT_BRACKET] + CommaJoin(ItemTexts(v, items)) + [RIGHT_BRACKET]
    case Object(members) => [LEFT_BRACE] + CommaJoin(FieldTexts(v, Entries(members))) + [RIGHT_BRACE]
  }

  function ItemTexts(v: Json, items: seq<Json>): seq<Text>
    requires v.Array? && forall i :: 0 <= i < |items| ==> items[i] in v.items
    decreases v, 0
  {
    seq(|items|, i requires 0 <= i < |items| => Canonicalize(items[i]))
  }

  function FieldTexts(v: Json, entries: seq<Member>): seq<Text>
    requires v.Object? && forall i :: 0 <= i < |entries| ==> entries[i] in v.members && entries[i].value.Defined?
    decreases v, 0
  {
    seq(|entries|, i requires 0 <= i < |entries| => Quote(entries[i].key) + [COLON] + Canonicalize(entries[i].value.value))
  }

  /* ------------------------------ what is printed ------------------------------ */

  /** `null`, `true` and `false`, numbers as their tokens, strings as their literals, and the empty brackets and braces. */
  lemma PlainValuesPrint(token: Token, text: Text)
    ensures Canonicalize(Null) == [0x6e, 0x75, 0x6c, 0x6c]
    ensures Canonicalize(Boolean(true)) == [0x74, 0x72, 0x75, 0x65] && Canonicalize(Boolean(false)) == [0x66, 0x61, 0x6c, 0x73, 0x65]
    ensures Canonicalize(Number(token)) == token && Canonicalize(String(text)) == Quote(text)
    ensures Canonicalize(Array([])) == [0x5b, 0x5d] && Canonicalize(Object([])) == [0x7b, 0x7d]
  {
  }

  lemma {:induction false} JoinOneMore(texts: seq<Text>, t: Text)
    ensures CommaJoin(texts + [t]) == if texts == [] then t else CommaJoin(texts) + [0x2c] + t
  {
    if 1 < |texts| {
      assert (texts + [t])[1..] == texts[1..] + [t];
      JoinOneMore(texts[1..], t);
      assert CommaJoin(texts + [t]) == texts[0] + [COMMA] + (CommaJoin(texts[1..]) + [0x2c] + t);
    } else if texts != [] {
      assert (texts + [t])[1..] == [t];
    }
  }

  /** Everything up to the closing bracket or brace. */
  function Unclosed(t: Text): Text
    requires t != []
  {
    t[..|t| - 1]
  }

  /** One more text in a joined list between two units. */
  lemma JoinClosed(open: CodeUnit, texts: seq<Text>, t: Text, close: CodeUnit)
    ensures [open] + CommaJoin(texts + [t]) + [close]
         == Unclosed([open] + CommaJoin(texts) + [close]) + (if texts == [] then [] else [0x2c]) + t + [close]
  {
    JoinOneMore(texts, t);
    var inner := CommaJoin(texts);
    assert Unclosed([open] + inner + [close]) == [open] + inner;
    if texts != [] {
      assert [open] + (inner + [0x2c] + t) + [close] == [open] + inner + [0x2c] + t + [close];
    }
  }

  /** One more item is printed after the others, with a comma between. */
  lemma ArrayPrints(items: seq<Json>, item: Json)
    ensures Canonicalize(Array(items)) != []
    ensures Canonicalize(Array(items + [item]))
         == Unclosed(Canonicalize(Array(items))) + (if items == [] then [] else [0x2c]) + Canonicalize(item) + [0x5d]
  {
    var v, w := Array(items), Array(items + [item]);
    ArrayText(items);
    ArrayText(items + [item]);
    assert ItemTexts(w, items + [item]) == ItemTexts(v, items) + [Canonicalize(item)];
    JoinClosed(0x5b, ItemTexts(v, items), Canonicalize(item), 0x5d);
  }

  lemma ArrayText(items: seq<Json>)
    ensures Canonicalize(Array(items)) == [0x5b] + CommaJoin(ItemTexts(Array(items), items)) + [0x5d]
  {
  }

  lemma {:induction false} InsertLast(members: seq<Member>, m: Member)
    requires forall n :: n in members ==> Below(n.key, m.key)
    ensures Insert(members, m) == members + [m]
  {
    if members != [] {
      assert members[0] in members;
      BelowIsTotal(members[0].key, m.key);
      InsertLast(members[1..], m);
    }
  }

  /** A member whose key comes after all others is printed after them: its key, a colon, its value, and a comma before it. */
  lemma ObjectPrints(members: seq<Member>, key: Text, value: Json)
    requires forall m :: m in members ==> ComesFirst(m.key, key)
    ensures Canonicalize(Object(members)) != []
    ensures Canonicalize(Object(members + [Member(key, Defined(value))]))
         == Unclosed(Canonicalize(Object(members))) + (if forall m :: m in members ==> m.value.Undefined? then [] else [0x2c])
            + Quote(key) + [0x3a] + Canonicalize(value) + [0x7d]
  {
    var last := Member(key, Defined(value));
    OneMoreEntry(members, last);
    FieldsPrint(members, Entries(members), last);
    NoEntries(members);
  }

  lemma NoEntries(members: seq<Member>)
    ensures Entries(members) == [] <==> forall m :: m in members ==> m.value.Undefined?
  {
    if Entries(members) != [] {
      assert Entries(members)[0] in members && Entries(members)[0].value.Defined?;
    }
  }

  lemma FieldsPrint(members: seq<Member>, entries: seq<Member>, last: Member)
    requires last.value.Defined? && Entries(members) == entries && Entries(members + [last]) == entries + [last]
    ensures Canonicalize(Object(members)) != []
    ensures Canonicalize(Object(members + [last]))
         == Unclosed(Canonicalize(Object(members))) + (if entries == [] then [] else [0x2c])
            + Quote(last.key) + [0x3a] + Canonicalize(last.value.value) + [0x7d]
  {
    var texts := FieldTexts(Object(members), entries);
    ObjectText(members);
    ObjectText(members + [last]);
    FieldTextsGrow(Object(members), Object(members + [last]), entries, last);
    JoinClosed(0x7b, texts, Quote(last.key) + [COLON] + Canonicalize(last.value.value), 0x7d);
    Spread(Unclosed(Canonicalize(Object(members))) + (if texts == [] then [] else [0x2c]),
           Quote(last.key), [COLON], Canonicalize(last.value.value), [0x7d]);
  }

  lemma ObjectText(members: seq<Member>)
    ensures Canonicalize(Object(members)) == [0x7b] + CommaJoin(FieldTexts(Object(members), Entries(members))) + [0x7d]
  {
  }

  lemma Spread(front: Text, a: Text, b: Text, c: Text, back: Text)
    ensures front + (a + b + c) + back == front + a + b + c + back
  {
  }

  lemma FieldTextsGrow(v: Json, w: Json, entries: seq<Member>, last: Member)
    requires v.Object? && forall i :: 0 <= i < |entries| ==> entries[i] in v.members && entries[i].value.Defined?
    requires w.Object? && forall i :: 0 <= i < |entries + [last]| ==> (entries + [last])[i] in w.members && (entries + [last])[i].value.Defined?
    requires last.value.Defined?
    ensures FieldTexts(w, entries + [last])
         == FieldTexts(v, entries) + [Quote(last.key) + [COLON] + Canonicalize(last.value.value)]
  {
  }

  lemma OneMoreEntry(members: seq<Member>, last: Member)
    requires last.value.Defined? && forall m :: m in members ==> ComesFirst(m.key, last.key)
    ensures Entries(members + [last]) == Entries(members) + [last]
  {
    assert (members + [last])[..|members|] == members;
    var kept := OnlyDefined(members);
    assert OnlyDefined(members + [last]) == kept + [last] && (kept + [last])[..|kept|] == kept;
    forall n | n in SortByKey(kept) ensures Below(n.key, last.key) {
      var k :| 0 <= k <= |n.key| && k < |last.key| && n.key[..k] == last.key[..k] && (k == |n.key| || n.key[k] < last.key[k]);
      ComesFirstIsBelow(n.key, last.key, k);
    }
    InsertLast(SortByKey(kept), last);
  }

  /** An undefined member is not printed at all. */
  lemma UndefinedIsSkipped(members: seq<Member>, key: Text)
    ensures Canonicalize(Object(members + [Member(key, Undefined)])) == Canonicalize(Object(members))
  {
    var longer := members + [Member(key, Undefined)];
    assert longer[..|members|] == members;
    assert OnlyDefined(longer) == OnlyDefined(members) + [] == OnlyDefined(members);
    EntriesPrint(members, longer, Entries(members));
  }

  /** What is printed of an object is its entries. */
  lemma EntriesPrint(a: seq<Member>, b: seq<Member>, entries: seq<Member>)
    requires Entries(a) == entries && Entries(b) == entries
    ensures Canonicalize(Object(a)) == Canonicalize(Object(b))
  {
    ObjectText(a);
    ObjectText(b);
    var v, w := FieldTexts(Object(a), entries), FieldTexts(Object(b), entries);
    forall i | 0 <= i < |entries| ensures v[i] == w[i] {
    }
    assert v == w;
  }

  /* ------------------------------ unambiguous and order-free ------------------------------ */

  ghost predicate HasKey(members: seq<Member>, key: Text) {
    exists m :: m in members && m.key == key && m.value.Defined?
  }

  /** Equal up to the order of object members, at every depth; an undefined member is no member. */
  ghost predicate Same(v: Json, w: Json)
    decreases v
  {
    match (v, w)
    case (Array(a), Array(b)) => |a| == |b| && forall i :: 0 <= i < |a| ==> Same(a[i], b[i])
    case (Object(a), Object(b)) =>
      && (forall key :: HasKey(a, key) <==> HasKey(b, key))
      && (forall i, j :: 0 <= i < |a| && 0 <= j < |b| && a[i].key == b[j].key && a[i].value.Defined? && b[j].value.Defined? ==>
            Same(a[i].value.value, b[j].value.value))
    case _ => v == w
  }

  /** What may follow a value inside a larger text, or nothing. */
  predicate Ends(r: Text) { r == [] || r[0] == COMMA || r[0] == RIGHT_BRACKET || r[0] == RIGHT_BRACE }

  /** The first unit of a text tells what kind of value it is. */
  lemma FirstUnit(v: Json)
    ensures Canonicalize(v) != []
    ensures var u := Canonicalize(v)[0];
            match v
            case Null => u == 0x6e
            case Boolean(b) => u == if b then 0x74 else 0x66
            case Number(_) => 0x30 <= u <= 0x39 || u == 0x2d
            case String(_) => u == QUOTE
            case Array(_) => u == LEFT_BRACKET
            case Object(_) => u == LEFT_BRACE
  {
  }

  lemma UnitOfJoined(x: Text, y: Text, i: nat)
    ensures i < |x| ==> (x + y)[i] == x[i]
    ensures |x| <= i < |x + y| ==> (x + y)[i] == y[i - |x|]
  {
  }

  /** A number ends where its token does. */
  lemma TokensAreReadable(a: Token, b: Token, r: Text, q: Text)
    requires Ends(r) && Ends(q) && a + r == b + q
    ensures a == b && r == q
  {
    UnitOfJoined(a, r, |a|);
    UnitOfJoined(b, q, |a|);
    UnitOfJoined(a, r, |b|);
    UnitOfJoined(b, q, |b|);
    assert a == (a + r)[..|a|] && b == (b + q)[..|b|];
    assert r == (a + r)[|a|..] && q == (b + q)[|b|..];
  }

  /** Dropping equal units from the front of equal texts. */
  lemma DropFirst(u: CodeUnit, x: Text, y: Text)
    requires [u] + x == [u] + y
    ensures x == y
  {
    assert ([u] + x)[1..] == x && ([u] + y)[1..] == y;
  }

  lemma DropEqual(x: Text, r: Text, y: Text, q: Text)
    ensures x == y && x + r == y + q ==> r == q
  {
    assert r == (x + r)[|x|..] && q == (y + q)[|y|..];
  }

  lemma Regroup(a: Text, b: Text, c: Text, d: Text)
    ensures a + b + c + d == a + (b + (c + d))
  {
  }

  lemma JoinUnfolds(first: Text, rest: seq<Text>, close: Text)
    ensures CommaJoin([first] + rest) + close == first + (if rest == [] then close else [COMMA] + (CommaJoin(rest) + close))
  {
    assert ([first] + rest)[1..] == rest;
  }

  lemma ItemTextsUnfold(v: Json, items: seq<Json>)
    requires v.Array? && items != [] && forall i :: 0 <= i < |items| ==> items[i] in v.items
    ensures ItemTexts(v, items) == [Canonicalize(items[0])] + ItemTexts(v, items[1..])
  {
  }

  lemma FieldTextsUnfold(v: Json, entries: seq<Member>)
    requires v.Object? && entries != []
    requires forall i :: 0 <= i < |entries| ==> entries[i] in v.members && entries[i].value.Defined?
    ensures FieldTexts(v, entries)
         == [Quote(entries[0].key) + [COLON] + Canonicalize(entries[0].value.value)] + FieldTexts(v, entries[1..])
  {
  }

  /** Entries read alike: the same keys in the same places, with values that are the same. */
  ghost predicate SameEntries(a: seq<Member>, b: seq<Member>) {
    |a| == |b| && forall i :: 0 <= i < |a| ==>
      a[i].key == b[i].key && a[i].value.Defined? && b[i].value.Defined? && Same(a[i].value.value, b[i].value.value)
  }

  ghost predicate Lists(members: seq<Member>, key: Text) {
    exists j :: 0 <= j < |members| && members[j].key == key
  }

  lemma EntriesHaveKeys(members: seq<Member>, key: Text)
    ensures Lists(Entries(members), key) <==> HasKey(members, key)
  {
    var entries := Entries(members);
    if Lists(entries, key) {
      var j :| 0 <= j < |entries| && entries[j].key == key;
      assert entries[j] in members;
    }
    if HasKey(members, key) {
      var m :| m in members && m.key == key && m.value.Defined?;
      var j :| 0 <= j < |entries| && entries[j] == m;
    }
  }

  lemma SameEntriesSameKeys(a: seq<Member>, b: seq<Member>, key: Text)
    requires SameEntries(a, b)
    ensures Lists(a, key) <==> Lists(b, key)
  {
  }

  /** Objects whose sorted entries read alike are the same. */
  lemma EntriesDecide(v: Json, w: Json)
    requires v.Object? && w.Object? && UniqueKeys(v.members) && UniqueKeys(w.members)
    requires SameEntries(Entries(v.members), Entries(w.members))
    ensures Same(v, w)
  {
    var a, b := Entries(v.members), Entries(w.members);
    EntriesAscend(w.members);
    forall key ensures HasKey(v.members, key) <==> HasKey(w.members, key) {
      EntriesHaveKeys(v.members, key);
      EntriesHaveKeys(w.members, key);
      SameEntriesSameKeys(a, b, key);
    }
    forall i, j | 0 <= i < |v.members| && 0 <= j < |w.members| && v.members[i].key == w.members[j].key
                  && v.members[i].value.Defined? && w.members[j].value.Defined?
      ensures Same(v.members[i].value.value, w.members[j].value.value)
    {
      assert v.members[i] in a && w.members[j] in b;
      var k :| 0 <= k < |a| && a[k] == v.members[i];
      var l :| 0 <= l < |b| && b[l] == w.members[j];
      BelowIsStrict(b[l].key);
      assert k == l;
    }
  }

  /** Values print unambiguously, and say where they end. */
  lemma {:induction false} Readable(v: Json, w: Json, r: Text, q: Text)
    requires WellFormed(v) && WellFormed(w) && Ends(r) && Ends(q)
    requires Canonicalize(v) + r == Canonicalize(w) + q
    ensures Same(v, w) && r == q
    decreases v, 1, 0
  {
    FirstUnit(v);
    FirstUnit(w);
    assert (Canonicalize(v) + r)[0] == (Canonicalize(w) + q)[0];
    DropEqual(Canonicalize(v), r, Canonicalize(w), q);
    match (v, w)
    case (Array(a), Array(b)) =>
      Regroup([LEFT_BRACKET], CommaJoin(ItemTexts(v, a)), [RIGHT_BRACKET], r);
      Regroup([LEFT_BRACKET], CommaJoin(ItemTexts(w, b)), [RIGHT_BRACKET], q);
      DropFirst(LEFT_BRACKET, CommaJoin(ItemTexts(v, a)) + ([RIGHT_BRACKET] + r), CommaJoin(ItemTexts(w, b)) + ([RIGHT_BRACKET] + q));
      ItemsReadable(v, w, a, b, r, q);
    case (Object(a), Object(b)) =>
      Regroup([LEFT_BRACE], CommaJoin(FieldTexts(v, Entries(a))), [RIGHT_BRACE], r);
      Regroup([LEFT_BRACE], CommaJoin(FieldTexts(w, Entries(b))), [RIGHT_BRACE], q);
      DropFirst(LEFT_BRACE, CommaJoin(FieldTexts(v, Entries(a))) + ([RIGHT_BRACE] + r),
                CommaJoin(FieldTexts(w, Entries(b))) + ([RIGHT_BRACE] + q));
      FieldsReadable(v, w, Entries(a), Entries(b), r, q);
      EntriesDecide(v, w);
    case (Number(a), Number(b)) => TokensAreReadable(a, b, r, q);
    case (String(a), String(b)) => QuoteIsReadable(a, b, r, q);
    case _ =>
  }

  lemma {:induction false} ItemsReadable(v: Json, w: Json, a: seq<Json>, b: seq<Json>, r: Text, q: Text)
    requires v.Array? && w.Array? && WellFormed(v) && WellFormed(w)
    requires (forall i :: 0 <= i < |a| ==> a[i] in v.items) && (forall i :: 0 <= i < |b| ==> b[i] in w.items)
    requires CommaJoin(ItemTexts(v, a)) + ([RIGHT_BRACKET] + r) == CommaJoin(ItemTexts(w, b)) + ([RIGHT_BRACKET] + q)
    ensures |a| == |b| && (forall i :: 0 <= i < |a| ==> Same(a[i], b[i])) && r == q
    decreases v, 0, |a|
  {
    var x, y := [RIGHT_BRACKET] + r, [RIGHT_BRACKET] + q;
    if a != [] {
      FirstUnit(a[0]);
      ItemTextsUnfold(v, a);
      JoinUnfolds(Canonicalize(a[0]), ItemTexts(v, a[1..]), x);
    }
    if b != [] {
      FirstUnit(b[0]);
      ItemTextsUnfold(w, b);
      JoinUnfolds(Canonicalize(b[0]), ItemTexts(w, b[1..]), y);
    }
    if a == [] || b == [] {
      assert x == CommaJoin([]) + x && y == CommaJoin([]) + y;
      assert x[0] == RIGHT_BRACKET && y[0] == RIGHT_BRACKET;
      DropFirst(RIGHT_BRACKET, r, q);
    } else {
      var after := if |a| == 1 then x else [COMMA] + (CommaJoin(ItemTexts(v, a[1..])) + x);
      var follows := if |b| == 1 then y else [COMMA] + (CommaJoin(ItemTexts(w, b[1..])) + y);
      Readable(a[0], b[0], after, follows);
      if |a| == 1 || |b| == 1 {
        DropFirst(RIGHT_BRACKET, r, q);
      } else {
        DropFirst(COMMA, CommaJoin(ItemTexts(v, a[1..])) + x, CommaJoin(ItemTexts(w, b[1..])) + y);
        ItemsReadable(v, w, a[1..], b[1..], r, q);
      }
    }
  }

  lemma {:induction false} FieldsReadable(v: Json, w: Json, a: seq<Member>, b: seq<Member>, r: Text, q: Text)
    requires v.Object? && w.Object? && WellFormed(v) && WellFormed(w)
    requires forall i :: 0 <= i < |a| ==> a[i] in v.members && a[i].value.Defined?
    requires forall i :: 0 <= i < |b| ==> b[i] in w.members && b[i].value.Defined?
    requires CommaJoin(FieldTexts(v, a)) + ([RIGHT_BRACE] + r) == CommaJoin(FieldTexts(w, b)) + ([RIGHT_BRACE] + q)
    ensures SameEntries(a, b) && r == q
    decreases v, 0, |a|
  {
    var x, y := [RIGHT_BRACE] + r, [RIGHT_BRACE] + q;
    if a != [] {
      FieldTextsUnfold(v, a);
      JoinUnfolds(Quote(a[0].key) + [COLON] + Canonicalize(a[0].value.value), FieldTexts(v, a[1..]), x);
    }
    if b != [] {
      FieldTextsUnfold(w, b);
      JoinUnfolds(Quote(b[0].key) + [COLON] + Canonicalize(b[0].value.value), FieldTexts(w, b[1..]), y);
    }
    if a == [] || b == [] {
      assert x == CommaJoin([]) + x && y == CommaJoin([]) + y;
      assert x[0] == RIGHT_BRACE && y[0] == RIGHT_BRACE;
      DropFirst(RIGHT_BRACE, r, q);
    } else {
      var after := if |a| == 1 then x else [COMMA] + (CommaJoin(FieldTexts(v, a[1..])) + x);
      var follows := if |b| == 1 then y else [COMMA] + (CommaJoin(FieldTexts(w, b[1..])) + y);
      assert Ends(after) && Ends(follows);
      FieldIsReadable(v, w, a[0], b[0], after, follows);
      if |a| == 1 || |b| == 1 {
        DropFirst(RIGHT_BRACE, r, q);
      } else {
        DropFirst(COMMA, CommaJoin(FieldTexts(v, a[1..])) + x, CommaJoin(FieldTexts(w, b[1..])) + y);
        FieldsReadable(v, w, a[1..], b[1..], r, q);
      }
    }
  }

  lemma {:induction false} FieldIsReadable(v: Json, w: Json, m: Member, n: Member, r: Text, q: Text)
    requires v.Object? && w.Object? && WellFormed(v) && WellFormed(w) && Ends(r) && Ends(q)
    requires m in v.members && m.value.Defined? && n in w.members && n.value.Defined?
    requires Quote(m.key) + [COLON] + Canonicalize(m.value.value) + r == Quote(n.key) + [COLON] + Canonicalize(n.value.value) + q
    ensures m.key == n.key && Same(m.value.value, n.value.value) && r == q
    decreases v, 0, 0
  {
    var x, y := Canonicalize(m.value.value) + r, Canonicalize(n.value.value) + q;
    Regroup(Quote(m.key), [COLON], Canonicalize(m.value.value), r);
    Regroup(Quote(n.key), [COLON], Canonicalize(n.value.value), q);
    QuoteIsReadable(m.key, n.key, [COLON] + x, [COLON] + y);
    DropFirst(COLON, x, y);
    Readable(m.value.value, n.value.value, r, q);
  }

  lemma TailKeys(a: seq<Member>, key: Text)
    requires Ascending(a) && a != []
    ensures Lists(a[1..], key) <==> Lists(a, key) && key != a[0].key
  {
    BelowIsStrict(key);
    if Lists(a[1..], key) {
      var j :| 0 <= j < |a[1..]| && a[1..][j].key == key;
      assert a[j + 1].key == key;
    }
    if Lists(a, key) && key != a[0].key {
      var j :| 0 <= j < |a| && a[j].key == key;
      assert a[1..][j - 1].key == key;
    }
  }

  lemma SmallestAlign(a: seq<Member>, b: seq<Member>)
    requires Ascending(a) && Ascending(b) && a != [] && b != []
    requires Lists(b, a[0].key) && Lists(a, b[0].key)
    ensures a[0].key == b[0].key
  {
    BelowIsTotal(a[0].key, b[0].key);
  }

  /** Two ascending lists with the same keys have them in the same places. */
  lemma {:induction false} KeysAlign(a: seq<Member>, b: seq<Member>)
    requires Ascending(a) && Ascending(b) && forall key :: Lists(a, key) <==> Lists(b, key)
    ensures |a| == |b| && forall i :: 0 <= i < |a| ==> a[i].key == b[i].key
  {
    assert a != [] ==> Lists(a, a[0].key);
    assert b != [] ==> Lists(b, b[0].key);
    if a != [] {
      SmallestAlign(a, b);
      forall key ensures Lists(a[1..], key) <==> Lists(b[1..], key) {
        TailKeys(a, key);
        TailKeys(b, key);
      }
      KeysAlign(a[1..], b[1..]);
    }
  }

  lemma EntriesAlign(v: Json, w: Json)
    requires v.Object? && w.Object? && UniqueKeys(v.members) && UniqueKeys(w.members) && Same(v, w)
    ensures SameEntries(Entries(v.members), Entries(w.members))
  {
    var a, b := Entries(v.members), Entries(w.members);
    EntriesAscend(v.members);
    EntriesAscend(w.members);
    forall key ensures Lists(a, key) <==> Lists(b, key) {
      EntriesHaveKeys(v.members, key);
      EntriesHaveKeys(w.members, key);
    }
    KeysAlign(a, b);
    forall i | 0 <= i < |a| ensures a[i].value.Defined? && b[i].value.Defined? && Same(a[i].value.value, b[i].value.value) {
      assert a[i] in v.members && b[i] in w.members;
    }
  }

  /** Values equal up to member order print the same. */
  lemma {:induction false} SamePrintsSame(v: Json, w: Json)
    requires WellFormed(v) && WellFormed(w) && Same(v, w)
    ensures Canonicalize(v) == Canonicalize(w)
    decreases v
  {
    match (v, w)
    case (Array(a), Array(b)) =>
      forall i | 0 <= i < |a| ensures ItemTexts(v, a)[i] == ItemTexts(w, b)[i] {
        SamePrintsSame(a[i], b[i]);
      }
      assert ItemTexts(v, a) == ItemTexts(w, b);
    case (Object(a), Object(b)) =>
      EntriesAlign(v, w);
      forall i | 0 <= i < |Entries(a)| ensures FieldTexts(v, Entries(a))[i] == FieldTexts(w, Entries(b))[i] {
        assert Entries(a)[i] in a && Entries(b)[i] in b;
        SamePrintsSame(Entries(a)[i].value.value, Entries(b)[i].value.value);
      }
      assert FieldTexts(v, Entries(a)) == FieldTexts(w, Entries(b));
    case _ =>
  }

  /**
   Two values have the same canonical form exactly when they are equal up to member order, with
   objects and arrays nested as they may be: the form hides nothing else, and nothing less.
   */
  lemma CanonicalFormDecides(v: Json, w: Json)
    requires WellFormed(v) && WellFormed(w)
    ensures Canonicalize(v) == Canonicalize(w) <==> Same(v, w)
  {
    if Canonicalize(v) == Canonicalize(w) {
      Readable(v, w, [], []);
    }
    if Same(v, w) {
      SamePrintsSame(v, w);
    }
  }
}
