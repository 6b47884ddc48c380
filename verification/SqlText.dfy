/** Statement text cut into tokens: the fixed pieces of the statements, names and operators
    filled in between them, "?" marks and numbered placeholders. */
module SqlText {
  import Decimal
  import opened Dialects

  datatype Token =
    | WhereKey | AndKey | OrKey | InKey | CountKey | SelectKey | FromKey | OrderKey | LimitKey | ExtractKey
    | ArrowKey | RowKey | IdKey | PairKey | OpenKey | CloseKey | GapKey | CommaKey | SpaceKey
    | Lit(s: string) | Mark | Numbered(n: nat)

  function Shown(t: Token): string {
    match t
    case WhereKey => " WHERE "
    case AndKey => " AND "
    case OrKey => " OR "
    case InKey => " IN ("
    case CountKey => "SELECT COUNT(*) FROM "
    case SelectKey => "SELECT "
    case FromKey => " FROM "
    case OrderKey => " ORDER BY "
    case LimitKey => " LIMIT "
    case ExtractKey => "json_extract("
    case ArrowKey => "::jsonb ->> "
    case RowKey => ", id) "
    case IdKey => ", id "
    case PairKey => " ("
    case OpenKey => "("
    case CloseKey => ")"
    case GapKey => ", "
    case CommaKey => ","
    case SpaceKey => " "
    case Lit(s) => s
    case Mark => [MARK]
    case Numbered(n) => [DOLLAR] + Decimal.FormatNat(n)
  }

  /** The text of a statement. */
  function Render(ts: seq<Token>): string {
    if ts == [] then [] else Shown(ts[0]) + Render(ts[1..])
  }

  function Marks(ts: seq<Token>): nat {
    if ts == [] then 0 else (if ts[0] == Mark then 1 else 0) + Marks(ts[1..])
  }

  /** Marks replaced by numbers from n + 1 on. */
  function Numbering(ts: seq<Token>, n: nat): (r: seq<Token>)
    ensures |r| == |ts|
  {
    if ts == [] then []
    else if ts[0] == Mark then [Numbered(n + 1)] + Numbering(ts[1..], n + 1)
    else [ts[0]] + Numbering(ts[1..], n)
  }

  /** A statement as it is written: its placeholders are plain marks. */
  function Marked(ts: seq<Token>): (r: seq<Token>)
    ensures |r| == |ts| && forall i :: 0 <= i < |ts| ==> r[i] == if ts[i].Numbered? then Mark else ts[i]
  {
    seq(|ts|, i requires 0 <= i < |ts| => if ts[i].Numbered? then Mark else ts[i])
  }

  lemma MarkedAppend(a: seq<Token>, b: seq<Token>)
    ensures Marked(a + b) == Marked(a) + Marked(b)
  {
  }

  /** The placeholders of ts are numbered in order, from m + 1 to n. */
  predicate InOrder(ts: seq<Token>, m: nat, n: nat) {
    Numbering(Marked(ts), m) == ts && m + Marks(Marked(ts)) == n
  }

  lemma InOrderAppend(a: seq<Token>, b: seq<Token>, m: nat, k: nat, n: nat)
    requires InOrder(a, m, k) && InOrder(b, k, n)
    ensures InOrder(a + b, m, n)
  {
    MarkedAppend(a, b);
    NumberingAppend(Marked(a), Marked(b), m);
    MarksAppend(Marked(a), Marked(b));
  }

  /** A piece with no placeholder but perhaps its last token. */
  lemma {:induction false} InOrderPiece(ts: seq<Token>, m: nat, n: nat)
    requires forall k :: 0 <= k < |ts| - 1 ==> !ts[k].Numbered? && ts[k] != Mark
    requires ts != [] ==> ts[|ts| - 1] != Mark && (ts[|ts| - 1].Numbered? ==> ts[|ts| - 1] == Numbered(m + 1))
    requires n == if ts != [] && ts[|ts| - 1].Numbered? then m + 1 else m
    ensures InOrder(ts, m, n)
  {
    if ts != [] {
      assert Marked(ts)[1..] == Marked(ts[1..]);
      if |ts| == 1 {
        assert Marked(ts[1..]) == [];
      } else {
        InOrderPiece(ts[1..], m, n);
      }
    }
  }

  /** A numbered statement stays as it is when a server numbers its marks. */
  lemma {:induction false} NumberedOnce(ts: seq<Token>, n: nat, m: nat)
    ensures Numbering(Numbering(ts, n), m) == Numbering(ts, n)
  {
    if ts != [] {
      NumberedOnce(ts[1..], if ts[0] == Mark then n + 1 else n, m);
      assert Numbering(ts, n)[1..] == Numbering(ts[1..], if ts[0] == Mark then n + 1 else n);
    }
  }

  /** What the server receives. */
  function Sent(d: Dialect, ts: seq<Token>): seq<Token> {
    if d == Sqlite then ts else Numbering(ts, 0)
  }

  /** Literal pieces hold no mark of their own and nothing is numbered yet. */
  predicate Unbound(ts: seq<Token>) {
    forall t :: t in ts ==> !t.Numbered? && (t.Lit? ==> MARK !in t.s)
  }

  lemma {:induction false} RenderAppend(a: seq<Token>, b: seq<Token>)
    ensures Render(a + b) == Render(a) + Render(b)
  {
    if a == [] {
      assert a + b == b;
    } else {
      assert (a + b)[1..] == a[1..] + b;
      RenderAppend(a[1..], b);
    }
  }

  lemma {:induction false} MarksAppend(a: seq<Token>, b: seq<Token>)
    ensures Marks(a + b) == Marks(a) + Marks(b)
  {
    if a == [] {
      assert a + b == b;
    } else {
      assert (a + b)[1..] == a[1..] + b;
      MarksAppend(a[1..], b);
    }
  }

  lemma {:induction false} NumberFromAppend(s: string, t: string, n: nat)
    requires MARK !in s
    ensures NumberFrom(s + t, n) == s + NumberFrom(t, n)
  {
    if s == [] {
      assert s + t == t;
    } else {
      assert (s + t)[1..] == s[1..] + t;
      NumberFromAppend(s[1..], t, n);
      assert [s[0]] + (s[1..] + NumberFrom(t, n)) == s + NumberFrom(t, n);
    }
  }

  lemma NoMarkShown(t: Token)
    requires !t.Numbered? && t != Mark && (t.Lit? ==> MARK !in t.s)
    ensures MARK !in Shown(t)
  {
  }

  /** Rebinding the text and numbering the tokens come to the same statement. */
  lemma {:induction false} RebindRenders(ts: seq<Token>, n: nat)
    requires Unbound(ts)
    ensures NumberFrom(Render(ts), n) == Render(Numbering(ts, n))
  {
    if ts != [] {
      assert ts[0] in ts;
      assert forall t :: t in ts[1..] ==> t in ts;
      if ts[0] == Mark {
        RebindRenders(ts[1..], n + 1);
        assert ([MARK] + Render(ts[1..]))[1..] == Render(ts[1..]);
      } else {
        RebindRenders(ts[1..], n);
        NoMarkShown(ts[0]);
        NumberFromAppend(Shown(ts[0]), Render(ts[1..]), n);
      }
    }
  }

  lemma SentText(d: Dialect, ts: seq<Token>)
    requires Unbound(ts)
    ensures Render(Sent(d, ts)) == Rebound(d, Render(ts))
  {
    RebindRenders(ts, 0);
  }

  /** The numbers of the placeholders of a numbered statement are n + 1, n + 2, ... in order. */
  function Numbers(ts: seq<Token>): seq<nat> {
    if ts == [] then []
    else (if ts[0].Numbered? then [ts[0].n] else []) + Numbers(ts[1..])
  }

  lemma {:induction false} NumbersInOrder(ts: seq<Token>, n: nat)
    requires Unbound(ts)
    ensures Numbers(Numbering(ts, n)) == seq(Marks(ts), i => n + 1 + i)
  {
    if ts != [] {
      assert ts[0] in ts;
      assert forall t :: t in ts[1..] ==> t in ts;
      NumbersInOrder(ts[1..], if ts[0] == Mark then n + 1 else n);
    }
  }

  lemma {:induction false} NumberingAppend(a: seq<Token>, b: seq<Token>, n: nat)
    ensures Numbering(a + b, n) == Numbering(a, n) + Numbering(b, n + Marks(a))
  {
    if a == [] {
      assert a + b == b;
    } else {
      assert (a + b)[1..] == a[1..] + b;
      NumberingAppend(a[1..], b, if a[0] == Mark then n + 1 else n);
    }
  }

  lemma {:induction false} NumberingAt(ts: seq<Token>, n: nat, k: nat)
    requires k < |ts|
    ensures Numbering(ts, n)[k] == if ts[k] == Mark then Numbered(n + Marks(ts[..k]) + 1) else ts[k]
  {
    if k == 0 {
      assert ts[..0] == [];
    } else {
      NumberingAt(ts[1..], if ts[0] == Mark then n + 1 else n, k - 1);
      assert ts[..k][1..] == ts[1..][..k - 1];
    }
  }
}
