/** The opaque page cursor of internal/store/query.go: a JSON object in unpadded base64url. */
module Cursors {
  import opened Base64Url
  import Decimal
  import Json
  import opened Options
  import Utf8

  datatype Cursor = Cursor(col: string, desc: bool, num: bool, val: string, id: string)

  function Members(c: Cursor): Json.Members {
    [("c", Json.Text(c.col)), ("d", Json.Bool(c.desc)), ("n", Json.Bool(c.num)),
     ("v", Json.Text(c.val)), ("i", Json.Text(c.id))]
  }

  function EncodeCursor(c: Cursor): (s: string)
    ensures s != [] && forall x :: x in s ==> InAlphabet(x)
  {
    Encode(Utf8.Encode(Json.PrintObject(Members(c))))
  }

  /** What strings.TrimSpace removes. */
  predicate IsSpace(c: char) {
    var u := c as int;
    9 <= u <= 13 || u == 32 || u == 0x85 || u == 0xA0 || u == 0x1680 || 0x2000 <= u <= 0x200A
    || u == 0x2028 || u == 0x2029 || u == 0x202F || u == 0x205F || u == 0x3000
  }

  predicate Blank(s: string) {
    forall c :: c in s ==> IsSpace(c)
  }

  /** One member stored into the struct: names match ignoring case, null stores nothing, an
      unknown name is skipped and a value of the wrong type is an error. */
  function Assign(c: Cursor, m: (string, Json.Value)): Option<Cursor> {
    if m.0 == "c" || m.0 == "C" then
      match m.1 { case Text(t) => Some(c.(col := t)) case Null => Some(c) case Bool(_) => None }
    else if m.0 == "d" || m.0 == "D" then
      match m.1 { case Bool(b) => Some(c.(desc := b)) case Null => Some(c) case Text(_) => None }
    else if m.0 == "n" || m.0 == "N" then
      match m.1 { case Bool(b) => Some(c.(num := b)) case Null => Some(c) case Text(_) => None }
    else if m.0 == "v" || m.0 == "V" then
      match m.1 { case Text(t) => Some(c.(val := t)) case Null => Some(c) case Bool(_) => None }
    else if m.0 == "i" || m.0 == "I" then
      match m.1 { case Text(t) => Some(c.(id := t)) case Null => Some(c) case Bool(_) => None }
    else Some(c)
  }

  function AssignAll(c: Cursor, ms: Json.Members): Option<Cursor>
    decreases |ms|
  {
    if ms == [] then Some(c)
    else
      match Assign(c, ms[0])
      case None => None
      case Some(next) => AssignAll(next, ms[1..])
  }

  const ZERO := Cursor("", false, false, "", "")

  /** DecodeCursor's three outcomes: no cursor, ErrBadCursor, a cursor. */
  datatype Decoded = Absent | Bad | Good(cursor: Cursor)

  function DecodeCursor(s: string): Decoded {
    if Blank(s) then Absent
    else
      match Decode(s)
      case None => Bad
      case Some(bytes) =>
        match Utf8.Decode(bytes)
        case None => Bad
        case Some(text) =>
          match Json.ReadObject(text)
          case None => Bad
          case Some(members) =>
            match AssignAll(ZERO, members)
            case None => Bad
            case Some(c) => if c.col == "" then Bad else Good(c)
  }

  lemma MembersRoundTrip(c: Cursor)
    ensures AssignAll(ZERO, Members(c)) == Some(c)
  {
    var ms := Members(c);
    assert ms[1..][1..] == ms[2..] && ms[2..][1..] == ms[3..] && ms[3..][1..] == ms[4..] && ms[4..][1..] == [];
    var c1 := ZERO.(col := c.col);
    var c2 := c1.(desc := c.desc);
    var c3 := c2.(num := c.num);
    var c4 := c3.(val := c.val);
    assert AssignAll(c4, ms[4..]) == Some(c);
    assert AssignAll(c3, ms[3..]) == Some(c);
    assert AssignAll(c2, ms[2..]) == Some(c);
    assert AssignAll(c1, ms[1..]) == Some(c);
  }

  /** A cursor, whatever its texts contain, comes back from its encoding unless it names no
      sort column, and then it is refused. */
  lemma CursorRoundTrip(c: Cursor)
    ensures DecodeCursor(EncodeCursor(c)) == if c.col == "" then Bad else Good(c)
  {
    var text := Json.PrintObject(Members(c));
    Base64RoundTrip(Utf8.Encode(text));
    Utf8.Utf8RoundTrip(text);
    Json.ObjectRoundTrip(Members(c));
    MembersRoundTrip(c);
    assert !Blank(EncodeCursor(c)) by {
      assert EncodeCursor(c)[0] in EncodeCursor(c) && InAlphabet(EncodeCursor(c)[0]);
    }
  }

  // ---- What any text decodes to --------------------------------------------------------

  const COL_NAMES := {"c", "C"}
  const DESC_NAMES := {"d", "D"}
  const NUM_NAMES := {"n", "N"}
  const VAL_NAMES := {"v", "V"}
  const ID_NAMES := {"i", "I"}

  predicate Sets(m: (string, Json.Value), names: set<string>) {
    m.0 in names && !m.1.Null?
  }

  /** The last member under one of the names that is not null has this value, or there is none and
      it is the default. */
  ghost predicate IsLast(ms: Json.Members, names: set<string>, v: Json.Value, default: Json.Value) {
    || (v == default && forall m :: m in ms ==> !Sets(m, names))
    || exists i :: 0 <= i < |ms| && Sets(ms[i], names) && ms[i].1 == v
                   && forall j :: i < j < |ms| ==> !Sets(ms[j], names)
  }

  /** The members under these names have the type of the field. */
  predicate WellTyped(ms: Json.Members) {
    forall m :: m in ms ==>
      && (Sets(m, COL_NAMES) || Sets(m, VAL_NAMES) || Sets(m, ID_NAMES) ==> m.1.Text?)
      && (Sets(m, DESC_NAMES) || Sets(m, NUM_NAMES) ==> m.1.Bool?)
  }

  /** The object's members make this cursor of the given one. */
  ghost predicate Stores(ms: Json.Members, before: Cursor, c: Cursor) {
    && WellTyped(ms)
    && IsLast(ms, COL_NAMES, Json.Text(c.col), Json.Text(before.col))
    && IsLast(ms, DESC_NAMES, Json.Bool(c.desc), Json.Bool(before.desc))
    && IsLast(ms, NUM_NAMES, Json.Bool(c.num), Json.Bool(before.num))
    && IsLast(ms, VAL_NAMES, Json.Text(c.val), Json.Text(before.val))
    && IsLast(ms, ID_NAMES, Json.Text(c.id), Json.Text(before.id))
  }

  lemma LastOfMore(ms: Json.Members, names: set<string>, v: Json.Value, middle: Json.Value, default: Json.Value)
    requires ms != [] && IsLast(ms[1..], names, v, middle)
    requires middle == if Sets(ms[0], names) then ms[0].1 else default
    ensures IsLast(ms, names, v, default)
  {
    if v == middle && forall m :: m in ms[1..] ==> !Sets(m, names) {
      assert ms == [ms[0]] + ms[1..];
      assert forall j :: 0 < j < |ms| ==> ms[j] in ms[1..];
    } else {
      var i :| 0 <= i < |ms[1..]| && Sets(ms[1..][i], names) && ms[1..][i].1 == v
        && forall j :: i < j < |ms[1..]| ==> !Sets(ms[1..][j], names);
      assert ms[i + 1] == ms[1..][i];
      assert forall j :: i + 1 < j < |ms| ==> ms[j] == ms[1..][j - 1];
    }
  }

  lemma LastIsOne(ms: Json.Members, names: set<string>, v: Json.Value, w: Json.Value, default: Json.Value)
    requires IsLast(ms, names, v, default) && IsLast(ms, names, w, default)
    ensures v == w
  {
    if !(v == default && forall m :: m in ms ==> !Sets(m, names)) {
      var i :| 0 <= i < |ms| && Sets(ms[i], names) && ms[i].1 == v && forall j :: i < j < |ms| ==> !Sets(ms[j], names);
      assert ms[i] in ms;
      var k :| 0 <= k < |ms| && Sets(ms[k], names) && ms[k].1 == w && forall j :: k < j < |ms| ==> !Sets(ms[j], names);
    }
  }

  lemma AssignedOne(c: Cursor, m: (string, Json.Value))
    ensures Assign(c, m).Some? <==> WellTyped([m])
    ensures Assign(c, m).Some? ==>
              var d := Assign(c, m).value;
              && Json.Text(d.col) == (if Sets(m, COL_NAMES) then m.1 else Json.Text(c.col))
              && Json.Bool(d.desc) == (if Sets(m, DESC_NAMES) then m.1 else Json.Bool(c.desc))
              && Json.Bool(d.num) == (if Sets(m, NUM_NAMES) then m.1 else Json.Bool(c.num))
              && Json.Text(d.val) == (if Sets(m, VAL_NAMES) then m.1 else Json.Text(c.val))
              && Json.Text(d.id) == (if Sets(m, ID_NAMES) then m.1 else Json.Text(c.id))
  {
    assert m in [m];
  }

  /** Members are stored exactly if they have their fields' types, and the last of each wins. */
  lemma {:induction false} AssignedIs(c: Cursor, ms: Json.Members)
    ensures AssignAll(c, ms).Some? <==> WellTyped(ms)
    ensures AssignAll(c, ms).Some? ==> Stores(ms, c, AssignAll(c, ms).value)
    decreases |ms|
  {
    if ms != [] {
      AssignedOne(c, ms[0]);
      assert ms == [ms[0]] + ms[1..];
      if Assign(c, ms[0]).Some? {
        var next := Assign(c, ms[0]).value;
        AssignedIs(next, ms[1..]);
        if AssignAll(next, ms[1..]).Some? {
          var d := AssignAll(next, ms[1..]).value;
          LastOfMore(ms, COL_NAMES, Json.Text(d.col), Json.Text(next.col), Json.Text(c.col));
          LastOfMore(ms, DESC_NAMES, Json.Bool(d.desc), Json.Bool(next.desc), Json.Bool(c.desc));
          LastOfMore(ms, NUM_NAMES, Json.Bool(d.num), Json.Bool(next.num), Json.Bool(c.num));
          LastOfMore(ms, VAL_NAMES, Json.Text(d.val), Json.Text(next.val), Json.Text(c.val));
          LastOfMore(ms, ID_NAMES, Json.Text(d.id), Json.Text(next.id), Json.Text(c.id));
        }
      }
    }
  }

  /** The text is base64url of the UTF-8 of a flat JSON object with these members. */
  ghost predicate Wraps(s: string, ms: Json.Members) {
    exists bytes, text :: Decode(s) == Some(bytes) && Utf8.Decode(bytes) == Some(text)
                          && Json.ReadObject(text) == Some(ms)
  }

  /** Whatever the text: it is no cursor if it is blank, it is a cursor if it wraps an object that
      stores it and names a column, and it is refused otherwise. */
  lemma DecodedIs(s: string, c: Cursor)
    ensures DecodeCursor(s).Absent? <==> Blank(s)
    ensures DecodeCursor(s) == Good(c) <==> !Blank(s) && c.col != "" && exists ms :: Wraps(s, ms) && Stores(ms, ZERO, c)
  {
    forall ms | Wraps(s, ms)
      ensures AssignAll(ZERO, ms).Some? ==> Stores(ms, ZERO, AssignAll(ZERO, ms).value)
      ensures Stores(ms, ZERO, c) ==> AssignAll(ZERO, ms) == Some(c)
    {
      AssignedIs(ZERO, ms);
      if Stores(ms, ZERO, c) {
        var d := AssignAll(ZERO, ms).value;
        LastIsOne(ms, COL_NAMES, Json.Text(c.col), Json.Text(d.col), Json.Text(ZERO.col));
        LastIsOne(ms, DESC_NAMES, Json.Bool(c.desc), Json.Bool(d.desc), Json.Bool(ZERO.desc));
        LastIsOne(ms, NUM_NAMES, Json.Bool(c.num), Json.Bool(d.num), Json.Bool(ZERO.num));
        LastIsOne(ms, VAL_NAMES, Json.Text(c.val), Json.Text(d.val), Json.Text(ZERO.val));
        LastIsOne(ms, ID_NAMES, Json.Text(c.id), Json.Text(d.id), Json.Text(ZERO.id));
      }
    }
  }

  /** The number a numeric cursor's value is bound as; what does not parse is bound as whatever
      ParseInt returns beside its error. */
  function NumericValue(c: Cursor): int {
    Decimal.ParseInt(c.val).0
  }

  /** A 64-bit sort value printed into a cursor is bound unchanged on the next page. */
  lemma NumericValueRoundTrip(c: Cursor, n: int)
    requires Decimal.MIN_INT64 <= n <= Decimal.MAX_INT64 && c.val == Decimal.FormatInt(n) && c.col != ""
    ensures DecodeCursor(EncodeCursor(c)).Good? && NumericValue(DecodeCursor(EncodeCursor(c)).cursor) == n
  {
    CursorRoundTrip(c);
    Decimal.IntRoundTrip(n);
  }
}
