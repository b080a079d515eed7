/** The web_fetch tool (class WebSearchTool): the scheme and host checks
    made before a URL is fetched, the HTML-to-text reduction of the page,
    and the shape of the result. */
module WebSearch {
  import opened Common
  import opened JsonValues
  import opened ToolResults

  const MAX_OUTPUT_CHARS: nat := 8192
  const TRUNCATED_NOTE: string := "\n[TRUNCATED]"

  /** `s` begins with `lower` when ASCII letters are compared without case
      (the (?i) flag without Unicode case folding). */
  predicate StartsWithIgnoreCase(s: string, lower: string)
  {
    |lower| <= |s| && ToLowerAscii(s[..|lower|]) == lower
  }

  /** Where the block opening at the front of `s` ends: just after the
      nearest closing tag that follows the opening tag; None when `s` does
      not start with an opening tag or no closing tag follows it. */
  function BlockEnd(s: string, open: string, close: string): (e: Option<nat>)
    ensures e.Some? ==> |open| + |close| <= e.value <= |s|
  {
    if StartsWithIgnoreCase(s, open) then
      match IndexOf(ToLowerAscii(s[|open|..]), close)
      case Some(k) => Some(|open| + k + |close|)
      case None => None
    else None
  }

  /** replaceAll("(?is)" + open + ".*?" + close, " "): scanning from the left,
      each opening tag that has a closing tag after it is removed together
      with everything up to the nearest such closing tag, and replaced by
      one space; an opening tag with no closing tag after it stays. */
  function RemoveBlocks(s: string, open: string, close: string): string
    requires open != [] && close != []
    decreases |s|
  {
    if s == [] then []
    else match BlockEnd(s, open, close)
      case Some(e) => " " + RemoveBlocks(s[e..], open, close)
      case None => [s[0]] + RemoveBlocks(s[1..], open, close)
  }

  /** replaceAll("<[^>]+>", " "): each '<' followed by at least one
      character other than '>' and then a '>' is a tag, replaced by one
      space. */
  function RemoveTags(s: string): string
    decreases |s|
  {
    if s == [] then []
    else if s[0] == '<' && IndexOfChar(s[1..], '>').Some? && IndexOfChar(s[1..], '>').value > 0 then
      " " + RemoveTags(s[IndexOfChar(s[1..], '>').value + 2..])
    else [s[0]] + RemoveTags(s[1..])
  }

  /** The six entity replacements, in their fixed order. */
  function DecodeEntities(s: string): string
  {
    var t := ReplaceLiteral(s, "&amp;", "&");
    var t := ReplaceLiteral(t, "&lt;", "<");
    var t := ReplaceLiteral(t, "&gt;", ">");
    var t := ReplaceLiteral(t, "&quot;", "\"");
    var t := ReplaceLiteral(t, "&#39;", "'");
    ReplaceLiteral(t, "&nbsp;", " ")
  }

  /** What is left of `s` after its leading \s characters. */
  function SkipSpaces(s: string): (r: string)
    ensures |r| <= |s| && r == s[|s| - |r|..]
    ensures r == [] || !IsRegexSpace(r[0])
    ensures s != [] && IsRegexSpace(s[0]) ==> |r| < |s|
  {
    if s != [] && IsRegexSpace(s[0]) then SkipSpaces(s[1..]) else s
  }

  /** replaceAll("\\s+", " "): each run of \s characters becomes one space. */
  function CollapseSpaces(s: string): string
    decreases |s|
  {
    if s == [] then []
    else if IsRegexSpace(s[0]) then " " + CollapseSpaces(SkipSpaces(s))
    else [s[0]] + CollapseSpaces(s[1..])
  }

  /** stripHtml: script blocks, style blocks, tags, entities, then the
      whitespace. */
  function StripHtml(html: string): string
  {
    var text := RemoveBlocks(html, "<script", "</script>");
    var text := RemoveBlocks(text, "<style", "</style>");
    var text := RemoveTags(text);
    var text := DecodeEntities(text);
    Trim(CollapseSpaces(text))
  }

  /** No two \s characters stand next to each other. */
  predicate NoDoubleSpace(s: string)
  {
    forall i :: 0 <= i < |s| - 1 ==> !(IsRegexSpace(s[i]) && IsRegexSpace(s[i + 1]))
  }

  /** After the collapse no two \s characters are adjacent, and the text
      starts with one only where the input did. */
  lemma {:induction false} CollapseNoDoubleSpace(s: string)
    ensures NoDoubleSpace(CollapseSpaces(s))
    ensures CollapseSpaces(s) != [] && IsRegexSpace(CollapseSpaces(s)[0]) ==> s != [] && IsRegexSpace(s[0])
    decreases |s|
  {
    if s != [] {
      if IsRegexSpace(s[0]) {
        CollapseNoDoubleSpace(SkipSpaces(s));
      } else {
        CollapseNoDoubleSpace(s[1..]);
      }
    }
  }

  /** A slice of a text with no adjacent \s characters has none either. */
  lemma SliceNoDoubleSpace(s: string, a: nat, b: nat)
    requires a <= b <= |s| && NoDoubleSpace(s)
    ensures NoDoubleSpace(s[a..b])
  {
    forall i | 0 <= i < b - a - 1 ensures !(IsRegexSpace(s[a..b][i]) && IsRegexSpace(s[a..b][i + 1])) {
      assert s[a..b][i] == s[a + i] && s[a..b][i + 1] == s[a + i + 1];
    }
  }

  /** Trimming keeps a text free of adjacent \s characters. */
  lemma TrimNoDoubleSpace(c: string)
    requires NoDoubleSpace(c)
    ensures NoDoubleSpace(Trim(c))
  {
    var front := TrimStart(c);
    SliceNoDoubleSpace(c, |c| - |front|, |c|);
    var back := TrimEnd(front);
    SliceNoDoubleSpace(front, 0, |back|);
    assert Trim(c) == back;
  }

  /** The text stripHtml returns has no leading or trailing whitespace and
      no two whitespace characters in a row. */
  lemma StripHtmlSpacing(html: string)
    ensures var r := StripHtml(html);
      && NoDoubleSpace(r)
      && (r != [] ==> !IsTrimmable(r[0]) && !IsTrimmable(r[|r| - 1]))
  {
    var text := DecodeEntities(RemoveTags(RemoveBlocks(RemoveBlocks(html, "<script", "</script>"), "<style", "</style>")));
    CollapseNoDoubleSpace(text);
    TrimNoDoubleSpace(CollapseSpaces(text));
  }

  /** No tag in the sense of <[^>]+> starts anywhere in `s`: after each
      '<' either a '>' follows at once or no '>' follows at all. */
  predicate NoTag(s: string)
  {
    forall k :: 0 <= k < |s| && s[k] == '<' ==> (k + 1 < |s| && s[k + 1] == '>') || '>' !in s[k + 1..]
  }

  /** Removing tags brings in no '>'. */
  lemma {:induction false} RemoveTagsNoNewGt(s: string)
    requires '>' !in s
    ensures '>' !in RemoveTags(s)
    decreases |s|
  {
    if s != [] {
      assert '>' !in s[1..];
      RemoveTagsNoNewGt(s[1..]);
    }
  }

  /** A character other than '<' in front keeps a text free of tags. */
  lemma NoTagCons(c: char, t: string)
    requires c != '<' && NoTag(t)
    ensures NoTag([c] + t)
  {
    forall k | 0 <= k < |[c] + t| && ([c] + t)[k] == '<'
      ensures (k + 1 < |[c] + t| && ([c] + t)[k + 1] == '>') || '>' !in ([c] + t)[k + 1..]
    {
      assert ([c] + t)[k + 1..] == t[k..];
    }
  }

  /** No tag is left once the tags are replaced. */
  lemma {:induction false} TagsGone(s: string)
    ensures NoTag(RemoveTags(s))
    decreases |s|
  {
    if s != [] {
      var gt := IndexOfChar(s[1..], '>');
      if s[0] == '<' && gt.Some? && gt.value > 0 {
        TagsGone(s[gt.value + 2..]);
        NoTagCons(' ', RemoveTags(s[gt.value + 2..]));
      } else {
        var rest := RemoveTags(s[1..]);
        TagsGone(s[1..]);
        if s[0] != '<' {
          NoTagCons(s[0], rest);
        } else {
          if gt.None? {
            RemoveTagsNoNewGt(s[1..]);
          } else {
            assert s[1] == '>' && s[1..][1..] == s[2..];
            assert rest[0] == '>';
          }
          forall k | 0 <= k < |[s[0]] + rest| && ([s[0]] + rest)[k] == '<'
            ensures (k + 1 < |[s[0]] + rest| && ([s[0]] + rest)[k + 1] == '>') || '>' !in ([s[0]] + rest)[k + 1..]
          {
            assert ([s[0]] + rest)[k + 1..] == rest[k..];
          }
        }
      }
    }
  }

  /** Text without '<' passes the tag replacement unchanged. */
  lemma {:induction false} RemoveTagsPlain(prefix: string, t: string)
    requires '<' !in prefix
    ensures RemoveTags(prefix + t) == prefix + RemoveTags(t)
    decreases |prefix|
  {
    if prefix != [] {
      var s := prefix + t;
      assert s[0] == prefix[0] && s[1..] == prefix[1..] + t;
      assert RemoveTags(s) == [prefix[0]] + RemoveTags(prefix[1..] + t);
      RemoveTagsPlain(prefix[1..], t);
      assert prefix == [prefix[0]] + prefix[1..];
    } else {
      assert prefix + t == t;
    }
  }

  /** A tag at the front is replaced by one space. */
  lemma TagAtFront(inner: string, rest: string)
    requires inner != [] && '>' !in inner
    ensures RemoveTags(['<'] + inner + ['>'] + rest) == " " + RemoveTags(rest)
  {
    var tag := ['<'] + inner + ['>'] + rest;
    var after := tag[1..];
    assert after == inner + ['>'] + rest;
    assert after[|inner|] == '>' && after[..|inner|] == inner;
    assert IndexOfChar(after, '>') == Some(|inner|);
    assert tag[|inner| + 2..] == rest;
  }

  /** Each tag is replaced by one space, and the scan goes on after it. */
  lemma TagReplaced(prefix: string, inner: string, rest: string)
    requires '<' !in prefix && inner != [] && '>' !in inner
    ensures RemoveTags(prefix + (['<'] + inner + ['>'] + rest)) == prefix + " " + RemoveTags(rest)
  {
    var tag := ['<'] + inner + ['>'] + rest;
    RemoveTagsPlain(prefix, tag);
    TagAtFront(inner, rest);
  }

  /** An opening tag can only start at a '<'. */
  lemma NoOpenAt(s: string, open: string)
    requires s != [] && s[0] != '<' && open != [] && open[0] == '<'
    ensures !StartsWithIgnoreCase(s, open)
  {
    if |open| <= |s| {
      assert ToLowerAscii(s[..|open|])[0] == ToLowerAsciiChar(s[0]);
    }
  }

  /** Text without '<' passes the block removal unchanged. */
  lemma {:induction false} RemoveBlocksPlain(prefix: string, t: string, open: string, close: string)
    requires '<' !in prefix && open != [] && open[0] == '<' && close != []
    ensures RemoveBlocks(prefix + t, open, close) == prefix + RemoveBlocks(t, open, close)
    decreases |prefix|
  {
    if prefix != [] {
      var s := prefix + t;
      assert s[0] == prefix[0] && s[1..] == prefix[1..] + t;
      NoOpenAt(s, open);
      assert RemoveBlocks(s, open, close) == [prefix[0]] + RemoveBlocks(prefix[1..] + t, open, close);
      RemoveBlocksPlain(prefix[1..], t, open, close);
      assert prefix == [prefix[0]] + prefix[1..];
    } else {
      assert prefix + t == t;
    }
  }

  /** The first occurrence of `part` in `s` is still the first once more
      text follows. */
  lemma IndexOfExtend(s: string, part: string, t: string)
    requires IndexOf(s, part).Some?
    ensures IndexOf(s + t, part) == IndexOf(s, part)
  {
    var i := IndexOf(s, part).value;
    assert (s + t)[i..i + |part|] == s[i..i + |part|];
    forall j: nat | j < i ensures !OccursAt(s + t, part, j) {
      assert !OccursAt(s, part, j);
      assert (s + t)[j..j + |part|] == s[j..j + |part|];
    }
    IndexOfFinds(s + t, part, i);
  }

  /** Lower-casing works piece by piece. */
  lemma LowerConcat(a: string, b: string)
    ensures ToLowerAscii(a + b) == ToLowerAscii(a) + ToLowerAscii(b)
  {
  }

  /** The two halves of a concatenation. */
  lemma Halves(a: string, b: string)
    ensures (a + b)[..|a|] == a && (a + b)[|a|..] == b
  {
  }

  /** A block at the front is replaced by one space. */
  lemma BlockAtFront(tagOpen: string, middle: string, tagClose: string, rest: string, open: string, close: string)
    requires open != [] && close != []
    requires ToLowerAscii(tagOpen) == open && ToLowerAscii(tagClose) == close
    requires IndexOf(ToLowerAscii(middle + tagClose), close) == Some(|middle|)
    ensures RemoveBlocks(tagOpen + ((middle + tagClose) + rest), open, close) == " " + RemoveBlocks(rest, open, close)
  {
    var s := tagOpen + ((middle + tagClose) + rest);
    var e := FrontBlockEnd(tagOpen, middle, tagClose, rest, open, close);
    RemoveBlocksStep(s, open, close, e, rest);
  }

  /** A block at the front ends just after its closing tag, where `rest`
      begins. */
  lemma FrontBlockEnd(tagOpen: string, middle: string, tagClose: string, rest: string, open: string, close: string)
      returns (e: nat)
    requires ToLowerAscii(tagOpen) == open && ToLowerAscii(tagClose) == close
    requires IndexOf(ToLowerAscii(middle + tagClose), close) == Some(|middle|)
    ensures BlockEnd(tagOpen + ((middle + tagClose) + rest), open, close).Some?
    ensures BlockEnd(tagOpen + ((middle + tagClose) + rest), open, close).value == e
    ensures e <= |tagOpen + ((middle + tagClose) + rest)|
    ensures (tagOpen + ((middle + tagClose) + rest))[e..] == rest
  {
    var after := (middle + tagClose) + rest;
    var s := tagOpen + after;
    BlockFound(tagOpen, middle, tagClose, rest, open, close);
    BlockEndAt(s, open, close, |middle|);
    e := |open| + |middle| + |close|;
    Halves(tagOpen, after);
    Halves(middle + tagClose, rest);
  }

  /** The opening tag and the nearest closing tag after it, as the scan
      sees them. */
  lemma BlockFound(tagOpen: string, middle: string, tagClose: string, rest: string, open: string, close: string)
    requires ToLowerAscii(tagOpen) == open && ToLowerAscii(tagClose) == close
    requires IndexOf(ToLowerAscii(middle + tagClose), close) == Some(|middle|)
    ensures StartsWithIgnoreCase(tagOpen + ((middle + tagClose) + rest), open)
    ensures IndexOf(ToLowerAscii((tagOpen + ((middle + tagClose) + rest))[|open|..]), close) == Some(|middle|)
  {
    var after := (middle + tagClose) + rest;
    Halves(tagOpen, after);
    LowerConcat(middle + tagClose, rest);
    IndexOfExtend(ToLowerAscii(middle + tagClose), close, ToLowerAscii(rest));
  }

  /** One removal step of the scan. */
  lemma RemoveBlocksStep(s: string, open: string, close: string, e: nat, rest: string)
    requires open != [] && close != []
    requires BlockEnd(s, open, close).Some? && BlockEnd(s, open, close).value == e
    requires e <= |s| && s[e..] == rest
    ensures RemoveBlocks(s, open, close) == " " + RemoveBlocks(rest, open, close)
  {
  }

  /** Where the block ends, from the opening tag and the position of the
      closing tag after it. */
  lemma BlockEndAt(s: string, open: string, close: string, k: nat)
    requires StartsWithIgnoreCase(s, open) && IndexOf(ToLowerAscii(s[|open|..]), close) == Some(k)
    ensures BlockEnd(s, open, close).Some? && BlockEnd(s, open, close).value == |open| + k + |close|
  {
    var t := ToLowerAscii(s[|open|..]);
    assert IndexOf(t, close) == Some(k);
  }

  /** A block from an opening tag to the nearest closing tag after it
      (letters in either case) is replaced by one space, and the scan goes
      on after the closing tag. */
  lemma BlockRemoved(prefix: string, tagOpen: string, middle: string, tagClose: string, rest: string, open: string, close: string)
    requires open != [] && open[0] == '<' && close != [] && '<' !in prefix
    requires ToLowerAscii(tagOpen) == open && ToLowerAscii(tagClose) == close
    requires IndexOf(ToLowerAscii(middle + tagClose), close) == Some(|middle|)
    ensures RemoveBlocks(prefix + (tagOpen + ((middle + tagClose) + rest)), open, close)
      == prefix + " " + RemoveBlocks(rest, open, close)
  {
    var s := tagOpen + ((middle + tagClose) + rest);
    RemoveBlocksPlain(prefix, s, open, close);
    BlockAtFront(tagOpen, middle, tagClose, rest, open, close);
  }

  /** A text without '&' holds no entity. */
  lemma NoEntityWithoutAmpersand(s: string, entity: string)
    requires '&' !in s && entity != [] && entity[0] == '&'
    ensures !Contains(s, entity)
  {
    forall i: nat | i <= |s| ensures !OccursAt(s, entity, i) {
      if i + |entity| <= |s| {
        assert s[i..i + |entity|][0] == s[i];
      }
    }
  }

  /** A text without '&' passes the entity decoding unchanged. */
  lemma PlainTextNotDecoded(s: string)
    requires '&' !in s
    ensures DecodeEntities(s) == s
  {
    NoEntityWithoutAmpersand(s, "&amp;");
    NoEntityWithoutAmpersand(s, "&lt;");
    NoEntityWithoutAmpersand(s, "&gt;");
    NoEntityWithoutAmpersand(s, "&quot;");
    NoEntityWithoutAmpersand(s, "&#39;");
    NoEntityWithoutAmpersand(s, "&nbsp;");
  }

  /** The ampersand is decoded first, so an escaped entity is decoded
      twice: the page text "&amp;lt;" (which a browser shows as "&lt;")
      comes out as "<". */
  lemma EscapedEntityDecodedTwice()
    ensures DecodeEntities("&amp;lt;") == "<"
  {
    var s := "&amp;lt;";
    assert s[..5] == "&amp;" && s[5..] == "lt;";
    assert ReplaceLiteral("lt;", "&amp;", "&") == "lt;";
    var t := ReplaceLiteral(s, "&amp;", "&");
    assert t == "&lt;";
    assert t[..4] == "&lt;" && t[4..] == [];
    assert ReplaceLiteral(t, "&lt;", "<") == "<";
    PlainTextNotDecoded2("<");
  }

  /** The last four replacements leave a text without '&' alone. */
  lemma PlainTextNotDecoded2(s: string)
    requires '&' !in s
    ensures ReplaceLiteral(ReplaceLiteral(ReplaceLiteral(ReplaceLiteral(s, "&gt;", ">"), "&quot;", "\""), "&#39;", "'"), "&nbsp;", " ") == s
  {
    NoEntityWithoutAmpersand(s, "&gt;");
    NoEntityWithoutAmpersand(s, "&quot;");
    NoEntityWithoutAmpersand(s, "&#39;");
    NoEntityWithoutAmpersand(s, "&nbsp;");
  }

  newtype octet = x: int | 0 <= x < 0x100
  newtype hextet = x: int | 0 <= x < 0x1_0000

  /** The eight 16-bit groups of an IPv6 address. */
  type Groups = g: seq<hextet> | |g| == 8 witness [0, 0, 0, 0, 0, 0, 0, 0]

  /** An address InetAddress.getAllByName returns for a host. */
  datatype Address = V4(a: octet, b: octet, c: octet, d: octet) | V6(groups: Groups)

  /** 127.0.0.0/8 and ::1. */
  predicate IsLoopback(addr: Address)
  {
    match addr
    case V4(a, _, _, _) => a == 127
    case V6(g) => g == [0, 0, 0, 0, 0, 0, 0, 1]
  }

  /** 10.0.0.0/8, 172.16.0.0/12, 192.168.0.0/16 and fec0::/10. */
  predicate IsSiteLocal(addr: Address)
  {
    match addr
    case V4(a, b, _, _) => a == 10 || (a == 172 && 16 <= b < 32) || (a == 192 && b == 168)
    case V6(g) => 0xFEC0 <= g[0] < 0xFF00
  }

  /** 169.254.0.0/16 (where cloud metadata services answer) and fe80::/10. */
  predicate IsLinkLocal(addr: Address)
  {
    match addr
    case V4(a, b, _, _) => a == 169 && b == 254
    case V6(g) => 0xFE80 <= g[0] < 0xFEC0
  }

  /** 0.0.0.0 and ::. */
  predicate IsAnyLocal(addr: Address)
  {
    match addr
    case V4(a, b, c, d) => a == 0 && b == 0 && c == 0 && d == 0
    case V6(g) => g == [0, 0, 0, 0, 0, 0, 0, 0]
  }

  /** 224.0.0.0/4 and ff00::/8. */
  predicate IsMulticast(addr: Address)
  {
    match addr
    case V4(a, _, _, _) => 224 <= a < 240
    case V6(g) => 0xFF00 <= g[0]
  }

  /** An address the tool may connect to. */
  predicate IsPublic(addr: Address)
  {
    !IsLoopback(addr) && !IsSiteLocal(addr) && !IsLinkLocal(addr) && !IsAnyLocal(addr) && !IsMulticast(addr)
  }

  function HexDigit(d: nat): char
    requires d < 16
  {
    if d < 10 then ('0' as int + d) as char else ('a' as int + d - 10) as char
  }

  /** Integer.toHexString for a non-negative value: lower-case digits, no
      leading zeros. */
  function Hex(n: nat): (r: string)
    ensures |r| >= 1
    decreases n
  {
    if n < 16 then [HexDigit(n)] else Hex(n / 16) + [HexDigit(n % 16)]
  }

  /** InetAddress.getHostAddress: dotted decimal, or eight hexadecimal groups
      separated by colons with no group elided. */
  function HostAddress(addr: Address): string
  {
    match addr
    case V4(a, b, c, d) =>
      NatToString(a as nat) + "." + NatToString(b as nat) + "." + NatToString(c as nat) + "." + NatToString(d as nat)
    case V6(g) =>
      Join(":", [Hex(g[0] as nat), Hex(g[1] as nat), Hex(g[2] as nat), Hex(g[3] as nat),
                 Hex(g[4] as nat), Hex(g[5] as nat), Hex(g[6] as nat), Hex(g[7] as nat)])
  }

  /** Why one address is refused, checking loopback, site-local, link-local,
      wildcard and multicast in that order; None for a public address. */
  function AddressProblem(addr: Address): (r: Option<string>)
    ensures r.None? <==> IsPublic(addr)
  {
    if IsLoopback(addr) then Some("loopback address is not allowed: " + HostAddress(addr))
    else if IsSiteLocal(addr) then Some("private/site-local address is not allowed: " + HostAddress(addr))
    else if IsLinkLocal(addr) then Some("link-local address is not allowed (e.g. cloud metadata): " + HostAddress(addr))
    else if IsAnyLocal(addr) then Some("wildcard address is not allowed: " + HostAddress(addr))
    else if IsMulticast(addr) then Some("multicast address is not allowed: " + HostAddress(addr))
    else None
  }

  /** The problem of the first refused address in resolution order. */
  function FirstProblem(addrs: seq<Address>): Option<string>
  {
    if addrs == [] then None
    else if AddressProblem(addrs[0]).Some? then AddressProblem(addrs[0])
    else FirstProblem(addrs[1..])
  }

  /** Nothing is refused exactly when every address is public, and a refusal
      is the refusal of one of the addresses. */
  lemma {:induction false} FirstProblemIff(addrs: seq<Address>)
    ensures FirstProblem(addrs).None? <==> forall i :: 0 <= i < |addrs| ==> IsPublic(addrs[i])
    ensures FirstProblem(addrs).Some? ==> exists i :: 0 <= i < |addrs| && FirstProblem(addrs) == AddressProblem(addrs[i])
  {
    if addrs != [] {
      FirstProblemIff(addrs[1..]);
      if AddressProblem(addrs[0]).None? {
        assert forall i :: 1 <= i < |addrs| ==> addrs[i] == addrs[1..][i - 1];
        if FirstProblem(addrs).Some? {
          var i :| 0 <= i < |addrs[1..]| && FirstProblem(addrs[1..]) == AddressProblem(addrs[1..][i]);
          assert addrs[1..][i] == addrs[i + 1];
        }
      }
    }
  }

  /** Past a run of public addresses, the first refusal is the rest's. */
  lemma {:induction false} FirstProblemSkips(addrs: seq<Address>, i: nat)
    requires i <= |addrs|
    requires forall j :: 0 <= j < i ==> IsPublic(addrs[j])
    ensures FirstProblem(addrs) == FirstProblem(addrs[i..])
    decreases i
  {
    if i > 0 {
      assert addrs[1..][i - 1..] == addrs[i..];
      FirstProblemSkips(addrs[1..], i - 1);
    }
  }

  /** The parts of java.net.URI the check reads; either may be null. */
  datatype Uri = Uri(scheme: Option<string>, host: Option<string>)

  /** "http".equalsIgnoreCase(scheme) || "https".equalsIgnoreCase(scheme); a
      null scheme is neither. */
  predicate IsHttpScheme(scheme: Option<string>)
  {
    scheme.Some? && (EqualsIgnoreCaseAscii("http", scheme.value) || EqualsIgnoreCaseAscii("https", scheme.value))
  }

  /** What validateUrl returns: None for a URL that may be fetched, or the
      reason it may not. Parsing the URL and resolving its host are the
      parameters `parse` and `resolve` (None when resolution throws). */
  function UrlProblem(url: string, parse: string -> Result<Uri, string>, resolve: string -> Option<seq<Address>>): Option<string>
  {
    match parse(url)
    case Failure(message) => Some("invalid URL: " + message)
    case Success(uri) =>
      if !IsHttpScheme(uri.scheme) then
        Some("only http and https schemes are allowed (got: " + NullText(uri.scheme) + ")")
      else if uri.host.None? || IsBlank(uri.host.value) then Some("URL has no host")
      else match resolve(uri.host.value)
        case None => Some("could not resolve host: " + uri.host.value)
        case Some(addrs) => FirstProblem(addrs)
  }

  /** WebSearchTool.validateUrl. */
  method ValidateUrl(url: string, parse: string -> Result<Uri, string>, resolve: string -> Option<seq<Address>>)
      returns (err: Option<string>)
    ensures err == UrlProblem(url, parse, resolve)
  {
    var uri := parse(url);
    if uri.Failure? {
      return Some("invalid URL: " + uri.error);
    }
    var scheme := uri.value.scheme;
    if !IsHttpScheme(scheme) {
      return Some("only http and https schemes are allowed (got: " + NullText(scheme) + ")");
    }
    var host := uri.value.host;
    if host.None? || IsBlank(host.value) {
      return Some("URL has no host");
    }
    var resolved := resolve(host.value);
    if resolved.None? {
      return Some("could not resolve host: " + host.value);
    }
    var addrs := resolved.value;
    for i := 0 to |addrs|
      invariant forall j :: 0 <= j < i ==> IsPublic(addrs[j])
    {
      var problem := AddressProblem(addrs[i]);
      if problem.Some? {
        FirstProblemSkips(addrs, i);
        return problem;
      }
    }
    FirstProblemIff(addrs);
    return None;
  }

  /** A URL passes only with an http or https scheme (in any case), a host
      that is not blank, a resolution that succeeds and only public
      addresses; and every such URL passes. */
  lemma {:induction false} ValidUrlIff(url: string, parse: string -> Result<Uri, string>, resolve: string -> Option<seq<Address>>)
    ensures UrlProblem(url, parse, resolve).None? <==>
      && parse(url).Success?
      && parse(url).value.scheme.Some?
      && ToLowerAscii(parse(url).value.scheme.value) in {"http", "https"}
      && parse(url).value.host.Some? && !IsBlank(parse(url).value.host.value)
      && resolve(parse(url).value.host.value).Some?
      && (forall addr :: addr in resolve(parse(url).value.host.value).value ==> IsPublic(addr))
  {
    assert ToLowerAscii("http") == "http" && ToLowerAscii("https") == "https";
    var uri := parse(url);
    if uri.Success? && uri.value.host.Some? {
      var resolved := resolve(uri.value.host.value);
      if resolved.Some? {
        FirstProblemIff(resolved.value);
      }
    }
  }

  /** What the fetch does: an HTTP response with its status code, reason
      phrase and body (null when there is none), or an exception with its
      message (which may be null). */
  datatype FetchOutcome =
    | Response(code: int, message: string, body: Option<string>)
    | FetchFailed(error: Option<string>)

  /** The page text cut to MAX_OUTPUT_CHARS characters, with a note when it
      was cut. */
  function TruncateText(text: string): (r: string)
    ensures |r| <= MAX_OUTPUT_CHARS + |TRUNCATED_NOTE|
    ensures |text| <= MAX_OUTPUT_CHARS ==> r == text
    ensures |text| > MAX_OUTPUT_CHARS ==> StartsWith(r, text[..MAX_OUTPUT_CHARS]) && EndsWith(r, TRUNCATED_NOTE)
  {
    if |text| > MAX_OUTPUT_CHARS then text[..MAX_OUTPUT_CHARS] + TRUNCATED_NOTE else text
  }

  /** What the tool makes of the fetch: an error for a status outside
      200-299, otherwise the stripped text of the body, cut when long. */
  function FetchResult(outcome: FetchOutcome): (r: ToolResult)
    ensures r.isError <==> outcome.FetchFailed? || !(200 <= outcome.code < 300)
    ensures !r.isError ==> |r.output| <= MAX_OUTPUT_CHARS + |TRUNCATED_NOTE|
  {
    match outcome
    case FetchFailed(error) => ToolResults.Error("Failed to fetch URL: " + NullText(error))
    case Response(code, message, body) =>
      if !(200 <= code < 300) then ToolResults.Error("HTTP " + IntToString(code) + ": " + message)
      else ToolResults.Success(TruncateText(StripHtml(if body.Some? then body.value else "")))
  }

  /** The outcome of WebSearchTool.execute; the fetch of the URL is the
      parameter `fetch`. */
  function FetchOutcomeOf(input: Option<Json>, parse: string -> Result<Uri, string>,
                          resolve: string -> Option<seq<Address>>, fetch: string -> FetchOutcome): ToolOutcome
  {
    if input.None? || !Has(input.value, "url") then Threw(MISSING_FIELD_MESSAGE)
    else
      var url := AsText(Get(input.value, "url").value);
      match UrlProblem(url, parse, resolve)
      case Some(problem) => Returned(ToolResults.Error("URL blocked: " + problem))
      case None => Returned(FetchResult(fetch(url)))
  }

  /** WebSearchTool.execute. */
  method Execute(input: Option<Json>, parse: string -> Result<Uri, string>,
                 resolve: string -> Option<seq<Address>>, fetch: string -> FetchOutcome)
      returns (o: ToolOutcome)
    ensures o == FetchOutcomeOf(input, parse, resolve, fetch)
  {
    if input.None? || !Has(input.value, "url") {
      return Threw(MISSING_FIELD_MESSAGE);
    }
    var url := AsText(Get(input.value, "url").value);
    var problem := ValidateUrl(url, parse, resolve);
    if problem.Some? {
      return Returned(ToolResults.Error("URL blocked: " + problem.value));
    }
    return Returned(FetchResult(fetch(url)));
  }

  /** A URL that fails validation is never fetched: the outcome is the same
      whatever the fetch would have done, and it is an error naming the
      reason. */
  lemma BlockedUrlNotFetched(input: Json, parse: string -> Result<Uri, string>, resolve: string -> Option<seq<Address>>,
                             fetch1: string -> FetchOutcome, fetch2: string -> FetchOutcome)
    requires Has(input, "url") && UrlProblem(AsText(Get(input, "url").value), parse, resolve).Some?
    ensures FetchOutcomeOf(Some(input), parse, resolve, fetch1) == FetchOutcomeOf(Some(input), parse, resolve, fetch2)
    ensures var o := FetchOutcomeOf(Some(input), parse, resolve, fetch1);
      o.Returned? && o.result.isError && StartsWith(o.result.output, "URL blocked: ")
  {
    var problem := UrlProblem(AsText(Get(input, "url").value), parse, resolve).value;
    assert ("URL blocked: " + problem)[..|"URL blocked: "|] == "URL blocked: ";
  }

  /** A page is returned only from a URL that passed validation, so only
      from a public address, and its text is at most MAX_OUTPUT_CHARS
      characters and the note. */
  lemma PageOnlyFromPublicAddress(input: Json, parse: string -> Result<Uri, string>, resolve: string -> Option<seq<Address>>,
                                  fetch: string -> FetchOutcome)
    requires FetchOutcomeOf(Some(input), parse, resolve, fetch).Returned?
    requires !FetchOutcomeOf(Some(input), parse, resolve, fetch).result.isError
    ensures Has(input, "url")
    ensures var url := AsText(Get(input, "url").value);
      && parse(url).Success?
      && parse(url).value.host.Some?
      && resolve(parse(url).value.host.value).Some?
      && (forall addr :: addr in resolve(parse(url).value.host.value).value ==> IsPublic(addr))
    ensures |FetchOutcomeOf(Some(input), parse, resolve, fetch).result.output| <= MAX_OUTPUT_CHARS + |TRUNCATED_NOTE|
  {
    ValidUrlIff(AsText(Get(input, "url").value), parse, resolve);
  }
}
