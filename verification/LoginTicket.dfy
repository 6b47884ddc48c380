/** The signed login ticket of internal/auth/loginticket.go. Strings are bytes here, as in the
    program; the keyed MAC is a parameter, already in its base64url form. */
module LoginTicket {
  import opened Base64Url
  import Decimal
  import opened Options

  type Bytes = seq<Byte>

  const BAR: Byte := 0x7C
  const DOT := '.'
  const TTL_SECONDS := 300

  function AsciiByte(c: char): Byte
    requires c as int < 128
  {
    c as int
  }

  /** The bytes of an ASCII string. */
  function Ascii(s: string): (b: Bytes)
    requires forall c :: c in s ==> c as int < 128
    ensures |b| == |s| && forall i :: 0 <= i < |s| ==> b[i] == s[i] as int
  {
    seq(|s|, i requires 0 <= i < |s| => assert s[i] in s; AsciiByte(s[i]))
  }

  /** Bytes as a string of one character each. */
  function FromBytes(b: Bytes): (s: string)
    ensures |s| == |b| && forall i :: 0 <= i < |b| ==> s[i] == b[i] as char
  {
    seq(|b|, i requires 0 <= i < |b| => b[i] as char)
  }

  function Payload(user: Bytes, email: Bytes, exp: int): Bytes {
    user + [BAR] + email + [BAR] + Ascii(Decimal.FormatInt(exp))
  }

  /** NewLoginTicket at time `now`. */
  function NewLoginTicket(mac: Bytes -> string, user: Bytes, email: Bytes, now: int): string {
    var payload := Payload(user, email, now + TTL_SECONDS);
    Encode(payload) + [DOT] + mac(payload)
  }

  function LastDot(s: string): (i: int)
    ensures -1 <= i < |s|
    ensures i >= 0 ==> s[i] == DOT
    ensures forall j :: i < j < |s| ==> s[j] != DOT
  {
    if s == [] then -1
    else if s[|s| - 1] == DOT then |s| - 1
    else LastDot(s[..|s| - 1])
  }

  /** strings.Split at each bar. */
  function Split(b: Bytes): (parts: seq<Bytes>)
    ensures parts != []
  {
    if b == [] then [[]]
    else
      var rest := Split(b[1..]);
      if b[0] == BAR then [[]] + rest else [[b[0]] + rest[0]] + rest[1..]
  }

  /** VerifyLoginTicket at time `now`: the user id and email, if the ticket is good. */
  function VerifyLoginTicket(mac: Bytes -> string, ticket: string, now: int): Option<(Bytes, Bytes)> {
    var dot := LastDot(ticket);
    if dot < 0 then None
    else
      match Decode(ticket[..dot])
      case None => None
      case Some(payload) =>
        if ticket[dot + 1..] != mac(payload) then None
        else
          var parts := Split(payload);
          if |parts| != 3 then None
          else
            var (exp, ok) := Decimal.ParseInt(FromBytes(parts[2]));
            if !ok || now > exp then None else Some((parts[0], parts[1]))
  }

  // ---- Properties ----------------------------------------------------------------------

  function Bars(b: Bytes): nat {
    if b == [] then 0 else (if b[0] == BAR then 1 else 0) + Bars(b[1..])
  }

  lemma {:induction false} BarsAppend(a: Bytes, b: Bytes)
    ensures Bars(a + b) == Bars(a) + Bars(b)
  {
    if a == [] {
      assert a + b == b;
    } else {
      BarsAppend(a[1..], b);
      assert (a + b)[1..] == a[1..] + b;
    }
  }

  lemma {:induction false} SplitCounts(b: Bytes)
    ensures |Split(b)| == Bars(b) + 1
  {
    if b != [] {
      SplitCounts(b[1..]);
    }
  }

  lemma {:induction false} NoBars(b: Bytes)
    ensures Bars(b) == 0 <==> BAR !in b
  {
    if b != [] {
      NoBars(b[1..]);
      assert b == [b[0]] + b[1..];
    }
  }

  lemma {:induction false} SplitFirst(a: Bytes, rest: Bytes)
    requires BAR !in a
    ensures Split(a + [BAR] + rest) == [a] + Split(rest)
  {
    var b := a + [BAR] + rest;
    if a == [] {
      assert b[1..] == rest;
    } else {
      assert b[1..] == a[1..] + [BAR] + rest;
      SplitFirst(a[1..], rest);
      assert [a[0]] + a[1..] == a;
    }
  }

  lemma {:induction false} SplitWhole(a: Bytes)
    requires BAR !in a
    ensures Split(a) == [a]
  {
    if a != [] {
      SplitWhole(a[1..]);
      assert [a[0]] + a[1..] == a;
    }
  }

  lemma NumberHasNoBar(n: int)
    ensures BAR !in Ascii(Decimal.FormatInt(n))
    ensures FromBytes(Ascii(Decimal.FormatInt(n))) == Decimal.FormatInt(n)
  {
    var s := Decimal.FormatInt(n);
    forall i | 0 <= i < |s|
      ensures Ascii(s)[i] != BAR && FromBytes(Ascii(s))[i] == s[i]
    {
      assert s[i] in s;
    }
  }

  lemma PayloadSplits(user: Bytes, email: Bytes, exp: int)
    ensures |Split(Payload(user, email, exp))| == 3 <==> BAR !in user && BAR !in email
    ensures BAR !in user && BAR !in email ==>
              Split(Payload(user, email, exp)) == [user, email, Ascii(Decimal.FormatInt(exp))]
  {
    var number := Ascii(Decimal.FormatInt(exp));
    var payload := Payload(user, email, exp);
    NumberHasNoBar(exp);
    assert payload == user + [BAR] + (email + [BAR] + number);
    BarsAppend(user + [BAR], email + [BAR] + number);
    BarsAppend(user, [BAR]);
    BarsAppend(email + [BAR], number);
    BarsAppend(email, [BAR]);
    assert Bars([BAR]) == 1 + Bars([]);
    SplitCounts(payload);
    NoBars(user);
    NoBars(email);
    NoBars(number);
    if BAR !in user && BAR !in email {
      SplitFirst(user, email + [BAR] + number);
      SplitFirst(email, number);
      SplitWhole(number);
    }
  }

  /** The last dot of a ticket is the separator: base64url has no dot. */
  lemma {:induction false} SeparatorFound(left: string, right: string)
    requires DOT !in right
    ensures LastDot(left + [DOT] + right) == |left|
    decreases |right|
  {
    var s := left + [DOT] + right;
    if right != [] {
      assert s[|s| - 1] == right[|right| - 1];
      assert s[..|s| - 1] == left + [DOT] + right[..|right| - 1];
      SeparatorFound(left, right[..|right| - 1]);
    }
  }

  /** A ticket verifies, and gives back the user id and email it was issued for, exactly for
      five minutes, provided neither holds a bar; with a bar in either it never does. */
  lemma TicketRoundTrip(mac: Bytes -> string, user: Bytes, email: Bytes, issued: int, now: int)
    requires '.' !in mac(Payload(user, email, issued + 300))
    requires Decimal.MIN_INT64 <= issued && issued + 300 <= Decimal.MAX_INT64
    ensures VerifyLoginTicket(mac, NewLoginTicket(mac, user, email, issued), now)
            == if AsciiByte('|') !in user && AsciiByte('|') !in email && now <= issued + 300 then Some((user, email))
               else None
  {
    var exp := issued + TTL_SECONDS;
    var payload := Payload(user, email, exp);
    var ticket := NewLoginTicket(mac, user, email, issued);
    SeparatorFound(Encode(payload), mac(payload));
    assert ticket[..|Encode(payload)|] == Encode(payload);
    assert ticket[|Encode(payload)| + 1..] == mac(payload);
    Base64RoundTrip(payload);
    PayloadSplits(user, email, exp);
    NumberHasNoBar(exp);
    Decimal.IntRoundTrip(exp);
  }

  /** Conversely, whatever verifies carries the MAC of the very bytes its answer is read
      from, and an expiry that has not passed. */
  lemma OnlySignedPayloadsVerify(mac: Bytes -> string, ticket: string, now: int)
    requires VerifyLoginTicket(mac, ticket, now).Some?
    ensures exists payload: Bytes, exp: int ::
              && ticket == ticket[..LastDot(ticket)] + [DOT] + mac(payload)
              && Decode(ticket[..LastDot(ticket)]) == Some(payload)
              && |Split(payload)| == 3
              && VerifyLoginTicket(mac, ticket, now) == Some((Split(payload)[0], Split(payload)[1]))
              && Decimal.ParseInt(FromBytes(Split(payload)[2])) == (exp, true) && now <= exp
  {
    var dot := LastDot(ticket);
    var payload := Decode(ticket[..dot]).value;
    var (exp, ok) := Decimal.ParseInt(FromBytes(Split(payload)[2]));
    assert ticket == ticket[..dot] + [DOT] + ticket[dot + 1..];
  }
}
