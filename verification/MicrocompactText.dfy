/** What a replacement says, and which results a pass takes for its own, in terms of their text blocks. */
module MicrocompactText {
  import opened Basics
  import opened Microcompact

  /** Block `k` is the first text of a result. */
  predicate FirstText(content: Content, k: nat) {
    k < |content| && content[k].TextBlock? && forall j :: 0 <= j < k ==> !content[j].TextBlock?
  }

  /** A result is taken for a placeholder exactly if its first text starts with the marker. */
  lemma {:induction false} PlaceholderMeans(content: Content)
    ensures IsPlaceholder(content) <==> exists k: nat :: FirstText(content, k) && MARKER <= content[k].text
  {
    hide MARKER;
    if content == [] {
    } else if content[0].TextBlock? {
      assert FirstText(content, 0);
      assert forall k: nat :: FirstText(content, k) ==> k == 0;
    } else {
      PlaceholderMeans(content[1..]);
      assert forall k: nat :: FirstText(content, k + 1) <==> FirstText(content[1..], k) by {
        assert forall j :: 0 <= j < |content| - 1 ==> content[1..][j] == content[j + 1];
      }
      if exists k: nat :: FirstText(content, k) && MARKER <= content[k].text {
        var k: nat :| FirstText(content, k) && MARKER <= content[k].text;
        assert FirstText(content[1..], k - 1);
      }
      if exists k: nat :: FirstText(content[1..], k) && MARKER <= content[1..][k].text {
        var k: nat :| FirstText(content[1..], k) && MARKER <= content[1..][k].text;
        assert FirstText(content, k + 1);
      }
    }
  }

  /** The text of a result is that of its text blocks, joined without separators. */
  lemma {:induction false} TextIsJoined(a: Content, b: Content)
    ensures PlainText(a + b) == PlainText(a) + PlainText(b)
    ensures forall t :: PlainText([TextBlock(t)]) == t && PlainText([OtherBlock]) == ""
  {
    forall t ensures PlainText([TextBlock(t)]) == t { assert [TextBlock(t)][1..] == []; }
    assert [OtherBlock][1..] == [];
    if a == [] {
      assert a + b == b;
    } else {
      assert (a + b)[1..] == a[1..] + b;
      TextIsJoined(a[1..], b);
    }
  }

  /** A text's characters that take two UTF-16 code units. */
  ghost function Wide(s: string): set<nat> { set i: nat | i < |s| && s[i] as int >= 0x1_0000 }

  lemma {:induction false} UnitsCountWide(s: string)
    ensures Units(s) == |s| + |Wide(s)|
  {
    hide Wide, Units;
    if s == "" {
      NoUnits();
    } else {
      var n := |s| - 1;
      UnitsCountWide(s[..n]);
      UnitsLast(s[..n], s[n]);
      WideLast(s[..n], s[n]);
      assert s[..n] + [s[n]] == s;
    }
  }

  lemma NoUnits()
    ensures Units("") == 0 && Wide("") == {}
  {
  }

  lemma WideLast(s: string, c: char)
    ensures |Wide(s + [c])| == |Wide(s)| + if c as int >= 0x1_0000 then 1 else 0
  {
    var all := Wide(s + [c]);
    forall i: nat ensures i in all <==> i in Wide(s) || (i == |s| && c as int >= 0x1_0000) {}
    assert |s| !in Wide(s);
    if c as int >= 0x1_0000 { assert all == Wide(s) + {|s|}; } else { assert all == Wide(s); }
  }

  lemma {:induction false} UnitsLast(s: string, c: char)
    ensures Units(s + [c]) == Units(s) + if c as int >= 0x1_0000 then 2 else 1
  {
    if s == "" {
      assert [c][1..] == "";
    } else {
      assert (s + [c])[1..] == s[1..] + [c];
      UnitsLast(s[1..], c);
    }
  }

  /** The text behind the digest: a line with the locator, if the result cites one. */
  function LocatorLine(locator: Option<string>): string { if locator.None? then "" else "\n" + locator.value }

  /**
   * With a digest, the replacement is the digest and the cited locator, whole. Without one, it is as much of the marker text
   * and the locator as the cap lets through, which is larger by the code units of the locator.
   */
  lemma ReplacementSays(config: Config, tools: Tools, callId: nat, content: Content)
    ensures var locator, text := tools.locator(PlainText(content)), ReplacementText(config, tools, callId, content);
      var cited := locator.Some? && locator.value != "";
      match tools.digest(callId)
      case Some(digest) =>
        && |text| == |digest| + |LocatorLine(locator)|
        && digest <= text && text[|digest|..] == LocatorLine(locator)
      case None =>
        var whole := if cited then MARKER_TEXT + "\n" + locator.value else MARKER_TEXT;
        var cap := config.placeholderChars + if cited then |locator.value| + |Wide(locator.value)| else 0;
        text <= whole && |text| == if |whole| <= cap then |whole| else cap
  {
    hide PlainText, MARKER_TEXT, Wide, Units;
    var locator := tools.locator(PlainText(content));
    if locator.Some? { UnitsCountWide(locator.value); }
  }
}
