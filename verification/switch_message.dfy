/**
 The text of the enum-switch diagnostic: which missing constants are named, how
 many are only counted, and how the list is rendered.
 */
module SwitchMessage {
  import opened Text

  const Prefix := "Non-exhaustive switch, expected cases for: "
  const DefaultHint := " Did you mean to include a 'default' case?"

  /** At most this many missing constants are named before the rest are counted. */
  const MaxShown := 3

  /** The named head of the missing-constant list and the count of the unnamed rest. */
  datatype Listing = Listing(shown: seq<string>, others: nat)

  /**
   Splits the missing constants into the ones the message names and the number of
   the rest: everything is named when there are at most `MaxShown`, otherwise the
   first `MaxShown` are named and the remainder is counted.
   */
  function Truncate(missing: seq<string>): (l: Listing)
    ensures |l.shown| <= MaxShown
    ensures |l.shown| <= |missing| && l.shown == missing[..|l.shown|]
    ensures |l.shown| + l.others == |missing|
    ensures l.others > 0 <==> |missing| > MaxShown
    ensures l.others > 0 ==> |l.shown| == MaxShown
  {
    if |missing| > MaxShown then Listing(missing[..MaxShown], |missing| - MaxShown)
    else Listing(missing, 0)
  }

  /**
   A complete list in prose: one name alone, two joined by " and ", three or more
   separated by ", " with ", and " before the last.
   */
  function ProseList(xs: seq<string>): (r: string)
    requires |xs| > 0
    ensures StartsWith(r, xs[0]) && EndsWith(r, xs[|xs| - 1])
  {
    if |xs| == 1 then xs[0]
    else if |xs| == 2 then xs[0] + " and " + xs[1]
    else
      var head := Join(xs[..|xs| - 1], ", ");
      assert StartsWith(head, xs[0]);
      head + ", and " + xs[|xs| - 1]
  }

  /**
   The count of the unnamed constants, as it follows the named ones in a truncated
   message: the digits between ", and " and " others." read back as `others`.
   */
  function Counted(others: nat): (r: string)
    ensures StartsWith(r, ", and ") && EndsWith(r, " others.")
    ensures |r| > 14 && AllDigits(r[6..|r| - 8]) && ParseDecimal(r[6..|r| - 8]) == others
  {
    var digits := NatToString(others);
    var r := ", and " + digits + " others.";
    assert r[..6] == ", and ";
    assert r[6..|r| - 8] == digits;
    ParseNatToString(others);
    r
  }

  /** The listing as text: a truncated listing counts the rest and suggests a default. */
  function Render(l: Listing): string
    requires |l.shown| > 0
  {
    if l.others > 0 then
      Join(l.shown, ", ") + Counted(l.others) + DefaultHint
    else ProseList(l.shown)
  }

  /** The whole diagnostic text for a non-empty list of missing constants. */
  function Message(missing: seq<string>): (r: string)
    requires |missing| > 0
    ensures StartsWith(r, Prefix)
    ensures |missing| > MaxShown ==> EndsWith(r, DefaultHint)
    ensures |missing| <= MaxShown ==> EndsWith(r, missing[|missing| - 1])
  {
    var r := Prefix + Render(Truncate(missing));
    assert r[..|Prefix|] == Prefix;
    r
  }
}

module SwitchMessageFacts {
  import opened Text
  import opened SwitchMessage

  /** With a single missing constant the message is the prefix and that name. */
  lemma SingleMissing(missing: seq<string>)
    requires |missing| == 1
    ensures Message(missing) == Prefix + missing[0]
  {
  }

  /** The first missing constant is named right after the prefix. */
  lemma MessageNamesFirst(missing: seq<string>)
    requires |missing| > 0
    ensures StartsWith(Message(missing), Prefix + missing[0])
  {
    var l := Truncate(missing);
    var body := Render(l);
    assert StartsWith(body, missing[0]) by {
      if l.others > 0 {
        var j := Join(l.shown, ", ");
        assert StartsWith(j, l.shown[0]);
        assert body == j + (Counted(l.others) + DefaultHint);
        assert body[..|l.shown[0]|] == j[..|l.shown[0]|];
      }
    }
    var r := Prefix + body;
    assert r == Message(missing);
    assert r[..|Prefix + missing[0]|] == Prefix + body[..|missing[0]|];
  }

  /** Three names joined: the separator between each adjacent pair. */
  lemma JoinThree(a: string, b: string, c: string, sep: string)
    ensures Join([a, b, c], sep) == a + sep + b + sep + c
  {
    JoinCons([a, b, c], sep);
    assert [a, b, c][1..] == [b, c];
    JoinCons([b, c], sep);
    assert [b, c][1..] == [c];
  }

  /**
   With more than three missing constants the message names the first three, in
   order and separated by ", ", then counts the remaining |missing| - 3 and ends
   with the default hint.
   */
  lemma TruncatedShape(missing: seq<string>)
    requires |missing| > MaxShown
    ensures Message(missing)
         == Prefix + (missing[0] + ", " + missing[1] + ", " + missing[2] + Counted(|missing| - 3))
            + DefaultHint
  {
    var shown := missing[..3];
    assert shown == [missing[0], missing[1], missing[2]];
    JoinThree(missing[0], missing[1], missing[2], ", ");
    assert Truncate(missing) == Listing(shown, |missing| - 3);
  }
}
