/** Ids, handles and the references agents send back: internal/protocol/protocol.go and
    internal/store/crm.go. Random bytes are arguments. */
module References {

  const ALPHABET := "abcdefghijkmnpqrstuvwxyz23456789"

  type Byte = b: int | 0 <= b < 256

  predicate IsSeparator(c: char) {
    c == '_' || c == '/'
  }

  predicate NoSeparator(s: string) {
    forall c :: c in s ==> !IsSeparator(c)
  }

  // ---- Generating ----------------------------------------------------------------------

  function Symbol(b: int): char
  {
    ALPHABET[b % 32]
  }

  function HandleFrom(bytes: seq<Byte>): (h: string)
    ensures |h| == |bytes| && forall i :: 0 <= i < |bytes| ==> h[i] == Symbol(bytes[i])
  {
    seq(|bytes|, i requires 0 <= i < |bytes| => Symbol(bytes[i]))
  }

  const HANDLE_LENGTH := 5

  /** NewHandle: the buffer of random bytes is rewritten in place and becomes the handle. */
  method NewHandle(buf: array<char>, random: seq<Byte>) returns (h: string)
    requires buf.Length == HANDLE_LENGTH && |random| == HANDLE_LENGTH
    requires forall i :: 0 <= i < HANDLE_LENGTH ==> buf[i] == random[i] as char
    modifies buf
    ensures h == HandleFrom(random) && h == buf[..]
  {
    for i := 0 to buf.Length
      invariant forall k :: 0 <= k < i ==> buf[k] == Symbol(random[k])
      invariant forall k :: i <= k < buf.Length ==> buf[k] == random[k] as char
    {
      buf[i] := ALPHABET[(buf[i] as int) % |ALPHABET|];
    }
    h := buf[..];
  }

  predicate IsHandle(h: string) {
    |h| == HANDLE_LENGTH && forall i :: 0 <= i < |h| ==> h[i] in ALPHABET
  }

  /** The bits of a number, the most significant first. */
  function Bits(n: nat, len: nat): (bits: seq<int>)
    ensures |bits| == len && AreBits(bits)
  {
    if len == 0 then [] else Bits(n / 2, len - 1) + [n % 2]
  }

  function Number(bits: seq<int>): int {
    if bits == [] then 0 else 2 * Number(bits[..|bits| - 1]) + bits[|bits| - 1]
  }

  function BitString(random: seq<Byte>): (bits: seq<int>)
    ensures |bits| == 8 * |random| && AreBits(bits)
  {
    if random == [] then [] else Bits(random[0], 8) + BitString(random[1..])
  }

  predicate AreBits(bits: seq<int>) {
    forall i :: 0 <= i < |bits| ==> 0 <= bits[i] < 2
  }

  /** Each five bits as a symbol. */
  function Symbols(bits: seq<int>, n: nat): (s: string)
    requires |bits| == 5 * n
    ensures |s| == n
  {
    if n == 0 then "" else [Symbol(Number(bits[..5]))] + Symbols(bits[5..], n - 1)
  }

  const ID_BODY := 16

  /** NewID: ten random bytes in base32, section 6 of RFC 4648. */
  function NewId(prefix: string, random: seq<Byte>): string
    requires |random| == 10
  {
    prefix + "_" + Symbols(BitString(random), ID_BODY)
  }

  /** The form of the ids NewID returns, see IdsAreGenerated. */
  predicate IsId(id: string) {
    exists i :: 0 <= i < |id| && IsIdFrom(id, i)
  }

  predicate IsIdFrom(id: string, i: nat) {
    i < |id| && id[i] == '_' && |id| == i + 1 + ID_BODY && forall k :: i < k < |id| ==> id[k] in ALPHABET
  }

  lemma AlphabetHasNoSeparator(c: char)
    requires c in ALPHABET
    ensures !IsSeparator(c)
  {
  }

  /** Where a symbol stands in the alphabet. */
  function Position(c: char): int {
    if c <= '9' then c as int - '2' as int + 24
    else if c <= 'k' then c as int - 'a' as int
    else if c <= 'n' then c as int - 'm' as int + 11
    else c as int - 'p' as int + 13
  }

  lemma PositionOf(i: nat)
    requires i < 32
    ensures Position(ALPHABET[i]) == i
  {
  }

  lemma SymbolOfPosition(n: nat)
    requires n < 32
    ensures Symbol(n) == ALPHABET[n] && Symbol(n) in ALPHABET && Position(Symbol(n)) == n
  {
    PositionOf(n);
    assert n % 32 == n;
  }

  lemma SymbolPosition(c: char)
    requires c in ALPHABET
    ensures 0 <= Position(c) < 32 && Symbol(Position(c)) == c
  {
    var k :| 0 <= k < |ALPHABET| && ALPHABET[k] == c;
    SymbolOfPosition(k);
  }

  function BytesOf(c: char): set<int> {
    set b | 0 <= b < 256 && Symbol(b) == c
  }

  lemma SymbolOf(k: nat, b: Byte)
    requires k < 32
    ensures Symbol(b) == ALPHABET[k] <==> b % 32 == k
  {
    PositionOf(k);
    PositionOf(b % 32);
  }

  lemma EightRemainders(k: nat)
    requires k < 32
    ensures |set b | 0 <= b < 256 && b % 32 == k| == 8
  {
    assert (set b | 0 <= b < 256 && b % 32 == k) == {k, k + 32, k + 64, k + 96, k + 128, k + 160, k + 192, k + 224};
  }

  /** Each symbol comes from equally many bytes: 256 is a multiple of the alphabet's length, and
      no symbol stands in the alphabet twice. */
  lemma SymbolsAreUnbiased(c: char)
    ensures |BytesOf(c)| == if c in ALPHABET then 8 else 0
  {
    if c in ALPHABET {
      var k :| 0 <= k < 32 && ALPHABET[k] == c;
      forall b | 0 <= b < 256
        ensures b in BytesOf(c) <==> b % 32 == k
      {
        SymbolOf(k, b);
      }
      assert BytesOf(c) == set b | 0 <= b < 256 && b % 32 == k;
      EightRemainders(k);
    } else {
      forall b | 0 <= b < 256
        ensures b !in BytesOf(c)
      {
        assert Symbol(b) in ALPHABET;
      }
      assert BytesOf(c) == {};
    }
  }

  /** Handles hold no separator. */
  lemma HandleIsBare(h: string)
    requires IsHandle(h)
    ensures NoSeparator(h)
  {
    forall c | c in h
      ensures !IsSeparator(c)
    {
      AlphabetHasNoSeparator(c);
    }
  }

  lemma HandleFromPositions(h: string) returns (random: seq<Byte>)
    requires IsHandle(h)
    ensures |random| == 5 && HandleFrom(random) == h
  {
    forall i | 0 <= i < |h|
      ensures 0 <= Position(h[i]) < 32 && Symbol(Position(h[i])) == h[i]
    {
      SymbolPosition(h[i]);
    }
    random := seq(5, i requires 0 <= i < 5 => Position(h[i]));
  }

  /** The handles are what NewHandle can make of five random bytes. */
  lemma HandlesAreGenerated(h: string)
    ensures IsHandle(h) <==> exists random: seq<Byte> :: |random| == 5 && HandleFrom(random) == h
  {
    if IsHandle(h) {
      var random := HandleFromPositions(h);
    }
  }

  // ---- Ids -----------------------------------------------------------------------------

  function Pow2(k: nat): nat {
    if k == 0 then 1 else 2 * Pow2(k - 1)
  }

  lemma {:induction false} NumberOfBits(n: nat, len: nat)
    requires n < Pow2(len)
    ensures Number(Bits(n, len)) == n
  {
    if len > 0 {
      NumberOfBits(n / 2, len - 1);
      assert Bits(n, len)[..len - 1] == Bits(n / 2, len - 1);
    }
  }

  lemma {:induction false} BitsOfNumber(bits: seq<int>)
    requires AreBits(bits)
    ensures 0 <= Number(bits) < Pow2(|bits|) && Bits(Number(bits), |bits|) == bits
  {
    if bits != [] {
      BitsOfNumber(bits[..|bits| - 1]);
    }
  }

  lemma FiveBits(bits: seq<int>)
    requires |bits| == 5 && AreBits(bits)
    ensures 0 <= Number(bits) < 32 && Bits(Number(bits), 5) == bits
  {
    BitsOfNumber(bits);
    assert Pow2(3) == 8;
  }

  lemma EightBits(bits: seq<int>)
    requires |bits| == 8 && AreBits(bits)
    ensures 0 <= Number(bits) < 256 && Bits(Number(bits), 8) == bits
  {
    BitsOfNumber(bits);
    assert Pow2(3) == 8 && Pow2(6) == 64;
  }

  /** The bits some symbols stand for. */
  function SymbolBits(s: string): (bits: seq<int>)
    ensures |bits| == 5 * |s|
  {
    if s == "" then []
    else if 0 <= Position(s[0]) then Bits(Position(s[0]), 5) + SymbolBits(s[1..])
    else [0, 0, 0, 0, 0] + SymbolBits(s[1..])
  }

  lemma {:induction false} SymbolsOfBits(bits: seq<int>, n: nat)
    requires |bits| == 5 * n && AreBits(bits)
    ensures SymbolBits(Symbols(bits, n)) == bits && forall c :: c in Symbols(bits, n) ==> c in ALPHABET
  {
    if n > 0 {
      FiveBits(bits[..5]);
      SymbolOfPosition(Number(bits[..5]));
      SymbolsOfBits(bits[5..], n - 1);
      assert Symbols(bits, n) == [Symbol(Number(bits[..5]))] + Symbols(bits[5..], n - 1);
      assert bits == bits[..5] + bits[5..];
    }
  }

  lemma {:induction false} BitsOfSymbols(s: string)
    requires forall c :: c in s ==> c in ALPHABET
    ensures AreBits(SymbolBits(s)) && Symbols(SymbolBits(s), |s|) == s
  {
    if s != "" {
      SymbolPosition(s[0]);
      NumberBelow32(Position(s[0]));
      BitsOfSymbols(s[1..]);
      assert SymbolBits(s)[..5] == Bits(Position(s[0]), 5) && SymbolBits(s)[5..] == SymbolBits(s[1..]);
    }
  }

  lemma NumberBelow32(n: nat)
    requires n < 32
    ensures Number(Bits(n, 5)) == n
  {
    assert Pow2(3) == 8;
    NumberOfBits(n, 5);
  }

  lemma NumberBelow256(n: nat)
    requires n < 256
    ensures Number(Bits(n, 8)) == n
  {
    assert Pow2(3) == 8 && Pow2(6) == 64;
    NumberOfBits(n, 8);
  }

  lemma {:induction false} BytesOfBits(bits: seq<int>, n: nat) returns (random: seq<Byte>)
    requires |bits| == 8 * n && AreBits(bits)
    ensures |random| == n && BitString(random) == bits
  {
    if n == 0 {
      random := [];
    } else {
      EightBits(bits[..8]);
      var rest := BytesOfBits(bits[8..], n - 1);
      random := [Number(bits[..8])] + rest;
      assert random[1..] == rest;
    }
  }

  lemma {:induction false} SameBytes(random: seq<Byte>, bytes: seq<Byte>)
    requires |random| == |bytes| && BitString(random) == BitString(bytes)
    ensures random == bytes
  {
    if random != [] {
      assert BitString(random)[..8] == Bits(random[0], 8) && BitString(random)[8..] == BitString(random[1..]);
      assert BitString(bytes)[..8] == Bits(bytes[0], 8) && BitString(bytes)[8..] == BitString(bytes[1..]);
      NumberBelow256(random[0]);
      NumberBelow256(bytes[0]);
      SameBytes(random[1..], bytes[1..]);
      assert random == [random[0]] + random[1..] && bytes == [bytes[0]] + bytes[1..];
    }
  }

  lemma BytesOfSymbols(tail: string) returns (random: seq<Byte>)
    requires |tail| == 16 && forall c :: c in tail ==> c in ALPHABET
    ensures |random| == 10 && Symbols(BitString(random), 16) == tail
  {
    BitsOfSymbols(tail);
    random := BytesOfBits(SymbolBits(tail), 10);
  }

  lemma IdParts(id: string, i: nat)
    requires IsIdFrom(id, i)
    ensures id == id[..i] + "_" + id[i + 1..] && |id[i + 1..]| == 16
    ensures forall c :: c in id[i + 1..] ==> c in ALPHABET
  {
  }

  lemma GeneratedIsId(prefix: string, random: seq<Byte>)
    requires |random| == 10
    ensures IsIdFrom(NewId(prefix, random), |prefix|)
  {
    var body := Symbols(BitString(random), 16);
    SymbolsOfBits(BitString(random), 16);
    forall k | |prefix| < k < |prefix| + 17
      ensures NewId(prefix, random)[k] in ALPHABET
    {
      assert NewId(prefix, random)[k] == body[k - |prefix| - 1];
    }
  }

  /** The ids are what NewID can make of a prefix and ten random bytes. */
  lemma IdsAreGenerated(id: string)
    ensures IsId(id) <==> exists prefix: string, random: seq<Byte> :: |random| == 10 && NewId(prefix, random) == id
  {
    if IsId(id) {
      var i :| 0 <= i < |id| && IsIdFrom(id, i);
      IdParts(id, i);
      var random := BytesOfSymbols(id[i + 1..]);
      assert NewId(id[..i], random) == id;
    }
    forall prefix: string, random: seq<Byte> | |random| == 10 && NewId(prefix, random) == id
      ensures IsId(id)
    {
      GeneratedIsId(prefix, random);
    }
  }

  /** No two prefixes or byte strings give the same id. */
  lemma IdsDiffer(prefix: string, random: seq<Byte>, other: string, bytes: seq<Byte>)
    requires |random| == |bytes| == 10 && NewId(prefix, random) == NewId(other, bytes)
    ensures prefix == other && random == bytes
  {
    var id := NewId(prefix, random);
    assert prefix == id[..|id| - 17] && Symbols(BitString(random), 16) == id[|id| - 16..];
    assert other == id[..|id| - 17] && Symbols(BitString(bytes), 16) == id[|id| - 16..];
    SymbolsOfBits(BitString(random), 16);
    SymbolsOfBits(BitString(bytes), 16);
    SameBytes(random, bytes);
  }

  // ---- Formatting and parsing ----------------------------------------------------------

  function FormatRef(kind: string, handle: string): string {
    if handle == "" then "" else kind + "_" + handle
  }

  /** strings.LastIndexAny(input, "/_"). */
  function LastSeparator(s: string): (i: int)
    ensures -1 <= i < |s| && (i >= 0 ==> IsSeparator(s[i]))
    ensures forall k :: i < k < |s| ==> !IsSeparator(s[k])
  {
    if s == [] then -1
    else if IsSeparator(s[|s| - 1]) then |s| - 1
    else LastSeparator(s[..|s| - 1])
  }

  function ParseRef(input: string): (r: string)
    ensures NoSeparator(r)
  {
    var i := LastSeparator(input);
    if i >= 0 then input[i + 1..] else input
  }

  /** Whatever form a reference to a handle takes, parsing gives the handle back exactly when
      the handle holds no separator. */
  lemma RefRoundTrip(kind: string, handle: string, sep: char)
    requires sep == '_' || sep == '/'
    ensures FormatRef(kind, handle) == if handle == "" then "" else kind + ['_'] + handle
    ensures ParseRef(kind + [sep] + handle) == handle <==> NoSeparator(handle)
    ensures ParseRef(handle) == handle <==> NoSeparator(handle)
  {
    var s := kind + [sep] + handle;
    assert s[|kind|] == sep;
    if NoSeparator(handle) {
      forall m | |kind| < m < |s|
        ensures !IsSeparator(s[m])
      {
        assert s[m] == handle[m - |kind| - 1] && handle[m - |kind| - 1] in handle;
      }
      assert LastSeparator(s) == |kind|;
      assert s[|kind| + 1..] == handle;
    }
  }

  /** An id never parses to a handle of the generated length. */
  lemma IdParsesLong(id: string)
    requires IsId(id)
    ensures |ParseRef(id)| == 16 && !NoSeparator(id)
  {
    var i :| 0 <= i < |id| && IsIdFrom(id, i);
    forall k | i < k < |id|
      ensures !IsSeparator(id[k])
    {
      AlphabetHasNoSeparator(id[k]);
    }
    assert id[i] in id;
    assert LastSeparator(id) == i;
  }

  // ---- A table of records --------------------------------------------------------------

  datatype Rec = Rec(ws: string, id: string, handle: string)

  /** Generated, or migrated from before handles existed and backfilled with its id. */
  predicate Wellborn(r: Rec) {
    IsId(r.id) && (IsHandle(r.handle) || r.handle == r.id)
  }

  /** The primary key on id and the unique index on (workspace_id, handle). */
  predicate Clashes(r: Rec, other: Rec) {
    r.id == other.id || (r.ws == other.ws && r.handle == other.handle)
  }

  /** No row of the table has this id, or this handle in this workspace. */
  predicate Free(rows: seq<Rec>, ws: string, id: string, handle: string) {
    forall r :: r in rows ==> r.id != id && (r.ws != ws || r.handle != handle)
  }

  predicate TableOk(rows: seq<Rec>) {
    && (forall i :: 0 <= i < |rows| ==> Wellborn(rows[i]))
    && (forall i, j :: 0 <= i < j < |rows| ==> !Clashes(rows[i], rows[j]))
  }

  predicate Matches(r: Rec, ws: string, ref: string) {
    r.ws == ws && (r.handle == ParseRef(ref) || r.id == ref)
  }

  datatype Outcome = Inserted(handle: string) | Exhausted | Failed

  class Records {
    var rows: seq<Rec>

    constructor ()
      ensures rows == []
    {
      rows := [];
    }

    /** One INSERT: refused when it would break a unique index. */
    method Insert(r: Rec) returns (unique: bool)
      modifies this
      ensures unique <==> Free(old(rows), r.ws, r.id, r.handle)
      ensures rows == if unique then old(rows) + [r] else old(rows)
    {
      unique := true;
      for i := 0 to |rows|
        invariant unique <==> forall k :: 0 <= k < i ==> !Clashes(rows[k], r)
      {
        if Clashes(rows[i], r) {
          unique := false;
        }
      }
      if unique {
        rows := rows + [r];
      }
    }

    /** genHandle around the insert of a new record: five attempts, each with a fresh handle;
        an error other than a unique violation ends them at once. */
    method GenHandle(ws: string, id: string, draws: seq<seq<Byte>>, broken: seq<bool>) returns (o: Outcome)
      requires |draws| == 5 && |broken| == 5 && forall i :: 0 <= i < 5 ==> |draws[i]| == HANDLE_LENGTH
      modifies this
      ensures o == Attempted(old(rows), ws, id, draws, broken, 0)
      ensures rows == if o.Inserted? then old(rows) + [Rec(ws, id, o.handle)] else old(rows)
      ensures TableOk(old(rows)) && IsId(id) ==> TableOk(rows)
    {
      ghost var before := rows;
      for attempt := 0 to 5
        invariant rows == before
        invariant Attempted(before, ws, id, draws, broken, 0) == Attempted(before, ws, id, draws, broken, attempt)
      {
        var buf := new char[HANDLE_LENGTH](i requires 0 <= i < HANDLE_LENGTH => draws[attempt][i] as char);
        var h := NewHandle(buf, draws[attempt]);
        if broken[attempt] {
          return Failed;
        }
        var unique := Insert(Rec(ws, id, h));
        if unique {
          return Inserted(h);
        }
      }
      o := Exhausted;
    }

    /** ResolveHandle; any one of the matching rows may answer the query. */
    method ResolveHandle(ws: string, ref: string) returns (found: bool, id: string)
      ensures found <==> exists i :: 0 <= i < |rows| && Matches(rows[i], ws, ref)
      ensures found ==> exists i :: 0 <= i < |rows| && Matches(rows[i], ws, ref) && rows[i].id == id
    {
      for i := 0 to |rows|
        invariant forall k :: 0 <= k < i ==> !Matches(rows[k], ws, ref)
      {
        if rows[i].ws == ws && (rows[i].handle == ParseRef(ref) || rows[i].id == ref) {
          return true, rows[i].id;
        }
      }
      return false, "";
    }
  }

  /** What the attempts from number k on come to. */
  function Attempted(rows: seq<Rec>, ws: string, id: string, draws: seq<seq<Byte>>, broken: seq<bool>, k: nat): Outcome
    requires |draws| == 5 && |broken| == 5 && k <= 5
    decreases 5 - k
  {
    if k == 5 then Exhausted
    else if broken[k] then Failed
    else if forall r :: r in rows ==> !Clashes(r, Rec(ws, id, HandleFrom(draws[k])))
        then Inserted(HandleFrom(draws[k]))
    else Attempted(rows, ws, id, draws, broken, k + 1)
  }

  /** The draws before number k found their handle, or the id, taken. */
  ghost predicate AllTaken(rows: seq<Rec>, ws: string, id: string, draws: seq<seq<Byte>>, broken: seq<bool>, k: nat)
    requires |draws| == 5 && |broken| == 5 && k <= 5
  {
    forall j :: 0 <= j < k ==> !broken[j] && !Free(rows, ws, id, HandleFrom(draws[j]))
  }

  /** The first free one among the five draws becomes the handle, unless the table fails before
      it; only when all five are taken is the insert given up. */
  lemma AttemptedIs(rows: seq<Rec>, ws: string, id: string, draws: seq<seq<Byte>>, broken: seq<bool>, k: nat)
    requires |draws| == 5 && |broken| == 5 && k < 5 && AllTaken(rows, ws, id, draws, broken, k)
    ensures broken[k] ==> Attempted(rows, ws, id, draws, broken, 0) == Failed
    ensures !broken[k] && Free(rows, ws, id, HandleFrom(draws[k])) ==>
              Attempted(rows, ws, id, draws, broken, 0) == Inserted(HandleFrom(draws[k]))
    ensures AllTaken(rows, ws, id, draws, broken, 5) ==> Attempted(rows, ws, id, draws, broken, 0) == Exhausted
  {
    for j := 0 to k
      invariant Attempted(rows, ws, id, draws, broken, 0) == Attempted(rows, ws, id, draws, broken, j)
    {
    }
    if AllTaken(rows, ws, id, draws, broken, 5) {
      for j := 0 to 5
        invariant Attempted(rows, ws, id, draws, broken, 0) == Attempted(rows, ws, id, draws, broken, j)
      {
      }
    }
  }

  /** No reference matches two records of a workspace. */
  lemma MatchIsUnique(rows: seq<Rec>, ws: string, ref: string, i: nat, j: nat)
    requires TableOk(rows) && i < |rows| && j < |rows| && Matches(rows[i], ws, ref) && Matches(rows[j], ws, ref)
    ensures i == j
  {
    var a, b := rows[i], rows[j];
    assert i < j ==> !Clashes(a, b);
    assert j < i ==> !Clashes(b, a);
    if a.id == ref || b.id == ref {
      IdParsesLong(ref);
      assert NoSeparator(ParseRef(ref));
    }
  }

  /** In any workspace a record's raw id resolves to that record, if it is the workspace's own, and
      to nothing otherwise. */
  lemma IdsResolve(rows: seq<Rec>, i: nat, j: nat, ws: string)
    requires TableOk(rows) && i < |rows| && j < |rows|
    ensures Matches(rows[j], ws, rows[i].id) <==> i == j && ws == rows[i].ws
  {
    var r, other := rows[i], rows[j];
    assert Wellborn(r) && Wellborn(other);
    assert i < j ==> !Clashes(r, other);
    assert j < i ==> !Clashes(other, r);
    IdParsesLong(r.id);
    if other.handle == ParseRef(r.id) {
      IdParsesLong(other.id);
    }
  }

  /** A generated handle, bare or formatted for any kind, resolves to the workspace's own record of
      that handle and to no other. */
  lemma HandlesResolve(rows: seq<Rec>, j: nat, ws: string, kind: string, handle: string)
    requires TableOk(rows) && j < |rows| && IsHandle(handle)
    ensures Matches(rows[j], ws, handle) <==> rows[j].ws == ws && rows[j].handle == handle
    ensures Matches(rows[j], ws, FormatRef(kind, handle)) <==> rows[j].ws == ws && rows[j].handle == handle
  {
    var r := rows[j];
    assert Wellborn(r);
    HandleIsBare(handle);
    RefRoundTrip(kind, handle, '_');
    IdParsesLong(r.id);
  }

  /** A handle backfilled from its record's id resolves bare, being that id, but not formatted. */
  lemma BackfilledDoNotResolve(rows: seq<Rec>, i: nat, kind: string)
    requires TableOk(rows) && i < |rows| && rows[i].handle == rows[i].id && NoSeparator(kind)
    ensures Matches(rows[i], rows[i].ws, rows[i].handle)
    ensures !Matches(rows[i], rows[i].ws, FormatRef(kind, rows[i].handle))
  {
    var r := rows[i];
    assert Wellborn(r);
    IdParsesLong(r.id);
    assert |FormatRef(kind, r.handle)| > |r.id|;
  }
}
