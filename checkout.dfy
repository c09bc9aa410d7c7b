/**
  The checkout message builder: client contact details, the order text sent
  to the shop's WhatsApp number, and the guard on the checkout button.
 */
module Checkout {
  import opened Wrappers
  import opened Catalog
  import opened Cart
  import Decimal

  datatype ClientInfo = ClientInfo(nomComplet: string, localisation: string)

  /** A partial update of the client details: the fields an input supplies. */
  datatype ClientInfoPatch = ClientInfoPatch(nomComplet: Option<string>, localisation: Option<string>)

  const EmptyClientInfo: ClientInfo := ClientInfo("", "")

  /** Merging a partial update: supplied fields replace, the others are kept. */
  function UpdateClientInfo(prev: ClientInfo, patch: ClientInfoPatch): (r: ClientInfo)
    ensures r.nomComplet == patch.nomComplet.GetOr(prev.nomComplet)
    ensures r.localisation == patch.localisation.GetOr(prev.localisation)
  {
    ClientInfo(
      if patch.nomComplet.Some? then patch.nomComplet.value else prev.nomComplet,
      if patch.localisation.Some? then patch.localisation.value else prev.localisation)
  }

  /** Applying the same patch twice is applying it once; an empty patch changes nothing. */
  lemma UpdateClientInfoIdempotent(prev: ClientInfo, patch: ClientInfoPatch)
    ensures UpdateClientInfo(UpdateClientInfo(prev, patch), patch) == UpdateClientInfo(prev, patch)
    ensures UpdateClientInfo(prev, ClientInfoPatch(None, None)) == prev
  {
  }

  /** The literal line break of the message: the three characters `%0A`, nothing else is encoded. */
  const LineBreak: string := "%0A"
  const Greeting: string := "Bonjour, je souhaite commander :%0A"
  const UrlPrefix: string := "https://wa.me/212696044246?text="

  /** The line of one item: a dash, its quantity, `x`, its name, and its unit price in dirhams in parentheses. */
  function ItemLine(item: CartItem): string {
    "- " + Decimal.IntToDecimal(item.quantity) + "x " + item.product.nom
      + " (" + Decimal.IntToDecimal(item.product.prix) + " DH)"
  }

  /** One line per item, in cart order. */
  function ItemLines(cart: Cart): (lines: seq<string>)
    ensures |lines| == |cart|
    ensures forall i :: 0 <= i < |cart| ==> lines[i] == ItemLine(cart[i])
  {
    seq(|cart|, i requires 0 <= i < |cart| => ItemLine(cart[i]))
  }

  /** The lines with `sep` between each two neighbours. */
  function Join(sep: string, lines: seq<string>): string {
    if lines == [] then ""
    else if |lines| == 1 then lines[0]
    else lines[0] + sep + Join(sep, lines[1..])
  }

  /** Where line `i` starts in `Join(sep, lines)`: the earlier lines, each followed by `sep`. */
  function Offset(sep: string, lines: seq<string>, i: nat): nat
    requires i <= |lines|
  {
    if i == 0 then 0 else Offset(sep, lines, i - 1) + |lines[i - 1]| + |sep|
  }

  lemma {:induction false} OffsetTail(sep: string, lines: seq<string>, i: nat)
    requires 0 < i <= |lines|
    ensures Offset(sep, lines, i) == |lines[0]| + |sep| + Offset(sep, lines[1..], i - 1)
  {
    if i > 1 {
      OffsetTail(sep, lines, i - 1);
    }
  }

  /** Line `i` stands in the joined text at its offset, followed by the separator unless it is last. */
  lemma {:induction false} JoinAt(sep: string, lines: seq<string>, i: nat)
    requires i < |lines|
    ensures Offset(sep, lines, i) + |lines[i]| <= |Join(sep, lines)|
    ensures Join(sep, lines)[Offset(sep, lines, i)..Offset(sep, lines, i) + |lines[i]|] == lines[i]
    ensures i + 1 < |lines| ==>
      Offset(sep, lines, i) + |lines[i]| + |sep| <= |Join(sep, lines)| &&
      Join(sep, lines)[Offset(sep, lines, i) + |lines[i]|..Offset(sep, lines, i + 1)] == sep
    ensures i + 1 == |lines| ==> Offset(sep, lines, i) + |lines[i]| == |Join(sep, lines)|
    decreases |lines|
  {
    var j := Join(sep, lines);
    if |lines| > 1 {
      var head := lines[0] + sep;
      assert j == head + Join(sep, lines[1..]);
      if i == 0 {
        assert j[..|lines[0]|] == lines[0];
        assert j[|lines[0]|..|lines[0]| + |sep|] == sep;
      } else {
        JoinAt(sep, lines[1..], i - 1);
        OffsetTail(sep, lines, i);
        assert lines[1..][i - 1] == lines[i];
        var o := Offset(sep, lines[1..], i - 1);
        var rest := Join(sep, lines[1..]);
        assert j[|head| + o..|head| + o + |lines[i]|] == rest[o..o + |lines[i]|];
        if i + 1 < |lines| {
          OffsetTail(sep, lines, i + 1);
          assert j[|head| + o + |lines[i]|..|head| + o + |lines[i]| + |sep|]
              == rest[o + |lines[i]|..o + |lines[i]| + |sep|];
        }
      }
    }
  }

  /** The text before the total. */
  const TotalLead: string := "%0ATotal : "

  /** The client's name line, as it follows the total and a blank line. */
  function NameLines(info: ClientInfo): string {
    " DH%0A%0AMon nom complet : " + info.nomComplet
  }

  /** The client's location line, which ends the message. */
  function LocationLine(info: ClientInfo): string {
    "%0AMa localisation : " + info.localisation
  }

  /** The closing part: the total line, a blank line, then the two client lines. */
  function Footer(total: int, info: ClientInfo): string {
    TotalLead + Decimal.IntToDecimal(total) + (NameLines(info) + LocationLine(info))
  }

  /** The order message: greeting, item lines, total and client details. */
  function Message(cart: Cart, info: ClientInfo): string {
    Greeting + Join(LineBreak, ItemLines(cart)) + Footer(Total(cart), info)
  }

  /** The link opened at checkout: the fixed prefix, then the message as it is. */
  function WhatsAppUrl(cart: Cart, info: ClientInfo): (url: string)
    ensures |url| >= |UrlPrefix|
    ensures url[..|UrlPrefix|] == UrlPrefix
    ensures url[|UrlPrefix|..] == Message(cart, info)
  {
    SliceOf(UrlPrefix, Message(cart, info), [], 0, |Message(cart, info)|);
    UrlPrefix + Message(cart, info)
  }

  /** The checkout button is enabled only when both client fields are filled. */
  predicate CheckoutEnabled(info: ClientInfo) {
    info.nomComplet != "" && info.localisation != ""
  }

  /** The checkout controls are shown only while the panel is open and the cart has items. */
  predicate CheckoutVisible(cart: Cart, isCartOpen: bool) {
    isCartOpen && |cart| > 0
  }

  /** A slice of the middle part of a concatenation is that slice of the part. */
  lemma SliceOf(a: string, b: string, c: string, lo: nat, hi: nat)
    requires lo <= hi <= |b|
    ensures |a + b + c| == |a| + |b| + |c|
    ensures (a + b + c)[|a| + lo..|a| + hi] == b[lo..hi]
    ensures (a + b)[..|a|] == a && (a + b)[|a|..] == b
  {
    var s := a + b + c;
    assert s[|a| + lo..|a| + hi] == b[lo..hi];
  }

  /** Equal concatenations with equal outer parts have equal middle parts. */
  lemma MiddleCancel(a: string, b1: string, b2: string, c: string)
    requires a + b1 + c == a + b2 + c
    ensures b1 == b2
  {
    var s1, s2 := a + b1 + c, a + b2 + c;
    assert |b1| == |b2|;
    assert s1[|a|..|a| + |b1|] == b1;
    assert s2[|a|..|a| + |b2|] == b2;
  }

  /** Item `i`'s line (`ItemLines(cart)[i]`, which is `ItemLine(cart[i])`) stands in the message
      after the greeting and the lines of the items before it. */
  lemma MessageItemLine(cart: Cart, info: ClientInfo, i: nat)
    requires i < |cart|
    ensures var m, line, o := Message(cart, info), ItemLines(cart)[i], |Greeting| + Offset(LineBreak, ItemLines(cart), i);
      o + |line| <= |m| && m[o..o + |line|] == line
  {
    JoinedLineAt(Greeting, LineBreak, ItemLines(cart), Footer(Total(cart), info), i);
  }

  lemma JoinedLineAt(before: string, sep: string, lines: seq<string>, after: string, i: nat)
    requires i < |lines|
    ensures var m, o := before + Join(sep, lines) + after, |before| + Offset(sep, lines, i);
      o + |lines[i]| <= |m| && m[o..o + |lines[i]|] == lines[i]
  {
    JoinAt(sep, lines, i);
    var o := Offset(sep, lines, i);
    SliceOf(before, Join(sep, lines), after, o, o + |lines[i]|);
  }

  /** Later items' lines start later: the message lists the items in cart order. */
  lemma {:induction false} OffsetsIncrease(sep: string, lines: seq<string>, i: nat, j: nat)
    requires i < j <= |lines| && sep != ""
    ensures Offset(sep, lines, i) + |lines[i]| < Offset(sep, lines, j)
    decreases j
  {
    if j > i + 1 {
      OffsetsIncrease(sep, lines, i, j - 1);
    }
  }

  /** `s` ends with `t`. */
  predicate EndsWith(s: string, t: string) {
    |t| <= |s| && s[|s| - |t|..] == t
  }

  lemma EndsWithAppend(a: string, b: string)
    ensures EndsWith(a + b, b)
  {
    assert (a + b)[|a|..] == b;
  }

  lemma EndsWithTransitive(s: string, t: string, u: string)
    requires EndsWith(s, t) && EndsWith(t, u)
    ensures EndsWith(s, u)
  {
    assert s[|s| - |u|..] == s[|s| - |t|..][|t| - |u|..];
  }

  /** The message ends with the footer, whose last line is the client's location exactly as typed. */
  lemma MessageEnding(cart: Cart, info: ClientInfo)
    ensures EndsWith(Message(cart, info), Footer(Total(cart), info))
    ensures EndsWith(Message(cart, info), LocationLine(info))
    ensures EndsWith(WhatsAppUrl(cart, info), LocationLine(info))
  {
    var f := Footer(Total(cart), info);
    var front := Greeting + Join(LineBreak, ItemLines(cart));
    EndsWithAppend(front, f);
    var tail := NameLines(info) + LocationLine(info);
    EndsWithAppend(TotalLead + Decimal.IntToDecimal(Total(cart)), tail);
    EndsWithAppend(NameLines(info), LocationLine(info));
    EndsWithTransitive(f, tail, LocationLine(info));
    EndsWithTransitive(Message(cart, info), f, LocationLine(info));
    EndsWithAppend(UrlPrefix, Message(cart, info));
    EndsWithTransitive(WhatsAppUrl(cart, info), Message(cart, info), LocationLine(info));
  }

  /** Footers that agree come from the same total: the total's text determines it. */
  lemma FooterDeterminesTotal(t1: int, t2: int, info: ClientInfo)
    requires Footer(t1, info) == Footer(t2, info)
    ensures t1 == t2
  {
    MiddleCancel(TotalLead, Decimal.IntToDecimal(t1), Decimal.IntToDecimal(t2), NameLines(info) + LocationLine(info));
    Decimal.IntToDecimalInjective(t1, t2);
  }
}

module CheckoutExample {
  import opened Catalog
  import opened Cart
  import opened Checkout
  import Decimal

  /** One item of two jackets at 500 DH: the message holds the line `- 2x Veste (500 DH)`, then a
      total of 1000 DH, then the client text untouched (the space in the name stays a space). */
  lemma ExampleOrder()
    ensures Message([CartItem(Product("rec1", "Veste", 500, "", "Disponible", "Vestes"), 2)],
                    ClientInfo("Ali Ben", "Casablanca"))
         == "Bonjour, je souhaite commander :%0A"
            + "- 2x Veste (500 DH)"
            + ("%0ATotal : " + "1000" + (" DH%0A%0AMon nom complet : Ali Ben" + "%0AMa localisation : Casablanca"))
  {
    var item := CartItem(Product("rec1", "Veste", 500, "", "Disponible", "Vestes"), 2);
    var info := ClientInfo("Ali Ben", "Casablanca");
    assert Decimal.IntToDecimal(2) == "2";
    assert Decimal.IntToDecimal(500) == "500";
    assert Decimal.IntToDecimal(1000) == "1000";
    assert Total([item]) == 1000;
    assert ItemLine(item) == "- " + "2" + "x " + "Veste" + " (" + "500" + " DH)";
    assert ItemLine(item) == "- 2x Veste (500 DH)";
    assert ItemLines([item]) == [ItemLine(item)];
    assert NameLines(info) == " DH%0A%0AMon nom complet : Ali Ben";
    assert LocationLine(info) == "%0AMa localisation : Casablanca";
  }
}
