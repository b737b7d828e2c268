/** The link formatter of the WhatsApp service: phone normalisation, the
    individual `wa.me` link and the group-invite link, each with the message
    percent-encoded into its `text` parameter. */
module Links {
  import opened Common
  import opened UriEncoding

  const WaMe := "https://wa.me/"
  const Https := "https://"
  const InviteMarker := "chat.whatsapp.com/"
  const GroupHost := Https + InviteMarker
  const TextParam := "?text="
  /** The group link used when the environment does not configure one. */
  const DefaultGroupToken := "DORRpChWn6V3J7erUo102N"
  const DefaultGroupLink := GroupHost + DefaultGroupToken

  /** The digit characters of `s`, in order: `replace(/\D/g, '')`. */
  function KeepDigits(s: string): (r: string)
    ensures AllDigits(r) && |r| <= |s|
    ensures AllDigits(s) ==> r == s
  {
    if s == [] then [] else (if IsDigit(s[0]) then [s[0]] else []) + KeepDigits(s[1..])
  }

  lemma {:induction false} KeepDigitsAppend(a: string, b: string)
    ensures KeepDigits(a + b) == KeepDigits(a) + KeepDigits(b)
  {
    if a == [] {
      assert a + b == b;
    } else {
      assert (a + b)[1..] == a[1..] + b;
      KeepDigitsAppend(a[1..], b);
    }
  }

  lemma {:induction false} KeepDigitsOfNonDigits(s: string)
    requires forall i :: 0 <= i < |s| ==> !IsDigit(s[i])
    ensures KeepDigits(s) == []
  {
    if s != [] {
      KeepDigitsOfNonDigits(s[1..]);
    }
  }

  /** `s.replace(/^p/, '')` for a literal prefix `p`. */
  function StripPrefix(s: string, p: string): string {
    if |p| <= |s| && s[..|p|] == p then s[|p|..] else s
  }

  lemma StripPrefixKeepsDigits(s: string, p: string)
    requires forall i :: 0 <= i < |p| ==> !IsDigit(p[i])
    ensures KeepDigits(StripPrefix(s, p)) == KeepDigits(s)
  {
    if |p| <= |s| && s[..|p|] == p {
      assert s == p + s[|p|..];
      KeepDigitsAppend(p, s[|p|..]);
      KeepDigitsOfNonDigits(p);
    }
  }

  /** formatPhoneNumber: None for an empty phone; otherwise the phone with a
      leading `whatsapp:` and `+` removed and then every non-digit dropped,
      which leaves exactly the digits of the original. */
  function FormatPhoneNumber(phone: string): (r: Option<string>)
    ensures r.None? <==> phone == ""
    ensures r.Some? ==> r.value == KeepDigits(phone) && AllDigits(r.value)
  {
    if phone == "" then None
    else
      var unprefixed := StripPrefix(phone, "whatsapp:");
      var unsigned := StripPrefix(unprefixed, "+");
      StripPrefixKeepsDigits(phone, "whatsapp:");
      StripPrefixKeepsDigits(unprefixed, "+");
      Some(KeepDigits(unsigned))
  }

  /** generateWhatsAppLink: no link when the phone has no digits, otherwise
      `https://wa.me/<digits>?text=<encoded message>`. */
  function GenerateWhatsAppLink(phone: string, message: string): (r: Option<string>)
    ensures r.None? <==> KeepDigits(phone) == ""
    ensures r.Some? ==> r.value == WaMe + KeepDigits(phone) + TextParam + EncodeURIComponent(message)
  {
    match FormatPhoneNumber(phone)
    case None => None
    case Some(formatted) =>
      if formatted == "" then None
      else Some(WaMe + formatted + TextParam + EncodeURIComponent(message))
  }

  /** The index of the first occurrence of `t` in `s`, if any. */
  function IndexOf(s: string, t: string): (r: Option<nat>)
    ensures r.Some? ==> OccursAt(s, t, r.value)
    ensures r.Some? ==> forall j :: 0 <= j < r.value ==> !OccursAt(s, t, j)
    ensures r.None? ==> forall j :: !OccursAt(s, t, j)
  {
    IndexFrom(s, t, 0)
  }

  /** The first occurrence of `t` in `s` at or after `k`, if any. */
  function IndexFrom(s: string, t: string, k: nat): (r: Option<nat>)
    ensures r.Some? ==> k <= r.value && OccursAt(s, t, r.value)
    ensures r.Some? ==> forall j :: k <= j < r.value ==> !OccursAt(s, t, j)
    ensures r.None? ==> forall j :: k <= j ==> !OccursAt(s, t, j)
    decreases |s| - k
  {
    if |s| < k + |t| then None
    else if OccursAt(s, t, k) then Some(k)
    else IndexFrom(s, t, k + 1)
  }

  /** An occurrence with none before it is the one IndexOf finds. */
  lemma FirstOccurrence(s: string, t: string, i: nat)
    requires OccursAt(s, t, i)
    requires forall j :: 0 <= j < i ==> !OccursAt(s, t, j)
    ensures IndexOf(s, t) == Some(i)
  {
  }

  lemma NoCharOccurrence(s: string, c: char)
    requires c !in s
    ensures forall j :: !OccursAt(s, [c], j)
  {
    forall j
      ensures !OccursAt(s, [c], j)
    {
      if 0 <= j < |s| {
        assert s[j..j + 1][0] == s[j];
        assert s[j] in s;
      }
    }
  }

  /** `s.split(sep)[0]`: the text before the first `sep`. */
  function SplitFirst(s: string, sep: string): string {
    match IndexOf(s, sep)
    case None => s
    case Some(j) => s[..j]
  }

  /** `s.split(sep)[1]` when `s` contains `sep`: the text between the first
      occurrence of `sep` and the next one (or the end). */
  function SplitSecond(s: string, sep: string): string
    requires IndexOf(s, sep).Some?
  {
    var i := IndexOf(s, sep).value;
    var rest := s[i + |sep|..];
    SplitFirst(rest, sep)
  }

  /** The invite token: the code itself, or, when it contains
      `chat.whatsapp.com/`, what follows the first occurrence up to a `?`. */
  function InviteToken(code: string): string {
    TokenAfter(code, InviteMarker)
  }

  function TokenAfter(code: string, marker: string): string {
    if IndexOf(code, marker).Some? then SplitFirst(SplitSecond(code, marker), "?")
    else code
  }

  /** generateWhatsAppGroupLink: no link for an empty code, otherwise
      `https://chat.whatsapp.com/<token>?text=<encoded message>`. */
  function GenerateWhatsAppGroupLink(code: string, message: string): (r: Option<string>)
    ensures r.None? <==> code == ""
    ensures r.Some? ==> r.value == GroupHost + InviteToken(code) + TextParam + EncodeURIComponent(message)
  {
    if code == "" then None
    else Some(GroupHost + InviteToken(code) + TextParam + EncodeURIComponent(message))
  }

  /** A prefix of `s` holds no occurrence that `s` does not hold at the same place. */
  lemma PrefixOccurrences(p: string, s: string, t: string)
    requires |p| <= |s| && s[..|p|] == p
    ensures forall k :: OccursAt(p, t, k) ==> OccursAt(s, t, k)
  {
    forall k | OccursAt(p, t, k)
      ensures OccursAt(s, t, k)
    {
      assert s[k..k + |t|] == p[k..k + |t|];
    }
  }

  /** `split(sep)[0]` is a prefix of the text that does not contain `sep`,
      and it ends at the end of the text or where the first `sep` begins. */
  lemma SplitFirstIsPrefix(s: string, sep: string)
    requires |sep| > 0
    ensures var p := SplitFirst(s, sep);
      |p| <= |s| && s[..|p|] == p && !Contains(p, sep)
    ensures var p := SplitFirst(s, sep);
      |p| == |s| || OccursAt(s, sep, |p|)
  {
    var p := SplitFirst(s, sep);
    assert |p| <= |s| && s[..|p|] == p;
    PrefixOccurrences(p, s, sep);
  }

  /** A code without `chat.whatsapp.com/` is used verbatim as the token. */
  lemma InviteTokenVerbatim(code: string)
    requires !Contains(code, InviteMarker)
    ensures InviteToken(code) == code
  {
    assert forall j :: !OccursAt(code, InviteMarker, j);
    assert IndexOf(code, InviteMarker).None?;
  }

  /** Otherwise the token follows the first marker immediately, holds
      neither a `?` nor another marker, and runs up to the first `?`, the
      next marker or the end of the code, whichever comes first. */
  lemma InviteTokenAfterMarker(code: string)
    requires Contains(code, InviteMarker)
    ensures IndexOf(code, InviteMarker).Some?
    ensures var token := InviteToken(code);
      && !Contains(token, "?") && !Contains(token, InviteMarker)
      && OccursAt(code, InviteMarker + token, IndexOf(code, InviteMarker).value)
    ensures IndexOf(code, InviteMarker).Some? ==>
      var e := IndexOf(code, InviteMarker).value + |InviteMarker| + |InviteToken(code)|;
      e == |code| || code[e] == '?' || OccursAt(code, InviteMarker, e)
  {
    var k :| OccursAt(code, InviteMarker, k);
    var i := IndexOf(code, InviteMarker).value;
    TokenAfterAt(code, InviteMarker, i);
    PieceShape(code, InviteMarker, i);
    PieceEnds(code, i + |InviteMarker|, InviteMarker);
  }

  /** The token after the first `marker`, at `i`, is the part of what
      follows the marker before the next marker, cut at the first `?`. */
  lemma TokenAfterAt(code: string, marker: string, i: nat)
    requires IndexOf(code, marker) == Some(i)
    ensures OccursAt(code, marker, i)
    ensures TokenAfter(code, marker) == SplitFirst(SplitFirst(code[i + |marker|..], marker), "?")
  {
    var rest := code[i + |marker|..];
    assert SplitSecond(code, marker) == SplitFirst(rest, marker);
    assert TokenAfter(code, marker) == SplitFirst(SplitSecond(code, marker), "?");
  }

  /** What follows the marker at `i`, cut at the next marker and then at the
      first `?`, follows the marker directly and holds neither a `?` nor the
      marker. */
  lemma PieceShape(code: string, marker: string, i: nat)
    requires |marker| > 0 && OccursAt(code, marker, i)
    ensures var token := SplitFirst(SplitFirst(code[i + |marker|..], marker), "?");
      && !Contains(token, "?") && !Contains(token, marker)
      && OccursAt(code, marker + token, i)
  {
    var rest := code[i + |marker|..];
    var piece := SplitFirst(rest, marker);
    var token := SplitFirst(piece, "?");
    SplitFirstIsPrefix(rest, marker);
    SplitFirstIsPrefix(piece, "?");
    PrefixOccurrences(token, piece, marker);
    assert rest[..|token|] == token;
    MarkerThenPrefix(code, marker, i, token);
  }

  /** That piece ends at the end of the code, at a `?`, or where the marker
      occurs again. */
  lemma PieceEnds(code: string, o: nat, marker: string)
    requires o <= |code|
    ensures var e := o + |SplitFirst(SplitFirst(code[o..], marker), "?")|;
      e == |code| || (e < |code| && code[e] == '?') || OccursAt(code, marker, e)
  {
    var rest := code[o..];
    var piece := SplitFirst(rest, marker);
    var token := SplitFirst(piece, "?");
    SplitFirstEnd(rest, marker);
    SplitFirstEnd(piece, "?");
    if |token| < |piece| {
      assert piece[|token|..|token| + 1][0] == piece[|token|];
      assert piece[|token|] == rest[|token|];
      assert code[o + |token|] == rest[|token|];
    } else if |piece| < |rest| {
      SuffixOccurrence(code, o, marker, |piece|);
    }
  }

  /** `split(sep)[0]` is a prefix ending at the end or at the first `sep`. */
  lemma SplitFirstEnd(s: string, sep: string)
    ensures var p := SplitFirst(s, sep);
      |p| <= |s| && s[..|p|] == p && (|p| == |s| || OccursAt(s, sep, |p|))
  {
  }

  /** An occurrence in a suffix is an occurrence in the whole text. */
  lemma SuffixOccurrence(s: string, o: nat, t: string, k: int)
    requires o <= |s| && OccursAt(s[o..], t, k)
    ensures OccursAt(s, t, o + k)
  {
    assert s[o..][k..k + |t|] == s[o + k..o + k + |t|];
  }

  lemma MarkerThenPrefix(code: string, marker: string, i: nat, token: string)
    requires OccursAt(code, marker, i)
    requires i + |marker| + |token| <= |code|
    requires code[i + |marker|..][..|token|] == token
    ensures OccursAt(code, marker + token, i)
  {
    var w := marker + token;
    assert code[i + |marker|..i + |w|] == token;
    assert code[i..i + |w|] == code[i..i + |marker|] + code[i + |marker|..i + |w|];
  }

  /** A text without the marker's last character cannot contain the marker. */
  lemma NoLastCharNoMarker(s: string, marker: string)
    requires |marker| > 0 && marker[|marker| - 1] !in s
    ensures forall j :: !OccursAt(s, marker, j)
  {
    var n := |marker| - 1;
    forall j
      ensures !OccursAt(s, marker, j)
    {
      if 0 <= j <= |s| - |marker| {
        assert s[j..j + |marker|][n] == s[j + n];
        assert s[j + n] in s;
      }
    }
  }

  /** The first `?` of `d + tail` is the head of `tail` when `d` holds none. */
  lemma FirstQuestionMark(d: string, tail: string)
    requires '?' !in d && |tail| > 0 && tail[0] == '?'
    ensures IndexOf(d + tail, "?") == Some(|d|)
  {
    var s := d + tail;
    assert s[|d|..|d| + 1] == [tail[0]];
    forall j | 0 <= j < |d|
      ensures !OccursAt(s, "?", j)
    {
      assert s[j..j + 1][0] == d[j];
      assert d[j] in d;
    }
    FirstOccurrence(s, "?", |d|);
  }

  /** An invite URL gives back its token, with or without a query. */
  lemma InviteUrlRoundTrip(token: string, query: string)
    requires '/' !in token && '?' !in token
    ensures InviteToken(GroupHost + token) == token
    ensures InviteToken(GroupHost + token + "?" + query) == token
  {
    InviteUrlToken(token, "");
    InviteUrlToken(token, "?" + query);
    assert GroupHost + token + "" == GroupHost + token;
    assert GroupHost + token + "?" + query == GroupHost + token + ("?" + query);
  }

  lemma InviteUrlToken(token: string, tail: string)
    requires '/' !in token && '?' !in token
    requires tail == [] || tail[0] == '?'
    ensures InviteToken(GroupHost + token + tail) == token
  {
    assert InviteMarker[17] == '/';
    assert forall k :: 0 <= k < |InviteMarker| ==> InviteMarker[k] != '?';
    TokenAfterScheme(Https, InviteMarker, token, tail);
  }

  /** The token after `scheme + marker` runs up to the query, whatever the
      query holds: the marker has no `?`, so no occurrence of it can start
      before the query's `?`. */
  lemma TokenAfterScheme(scheme: string, marker: string, token: string, tail: string)
    requires |marker| > 0 && marker[0] !in scheme
    requires marker[|marker| - 1] !in token && '?' !in marker
    requires '?' !in token && (tail == [] || tail[0] == '?')
    ensures TokenAfter(scheme + marker + token + tail, marker) == token
  {
    var rest := token + tail;
    var code := scheme + marker + token + tail;
    assert code == scheme + marker + rest;
    assert IndexOf(code, marker) == Some(|scheme|) by {
      MarkerAfterScheme(scheme, marker, rest);
    }
    SplitAfterMarker(scheme, marker, rest);
    var piece := SplitFirst(rest, marker);
    assert SplitSecond(code, marker) == piece;
    if tail == [] {
      assert rest == token;
      NoLastCharNoMarker(rest, marker);
      assert piece == token;
      NoCharOccurrence(token, '?');
    } else {
      NoMarkerBeforeQuery(token, tail, marker);
      SplitFirstIsPrefix(rest, marker);
      assert |piece| > |token|;
      assert piece == token + piece[|token|..] by {
        assert piece == rest[..|piece|];
      }
      assert piece[|token|] == rest[|token|] == '?';
      FirstQuestionMark(token, piece[|token|..]);
    }
  }

  /** In `token + tail`, with `tail` starting at a `?`, no occurrence of a
      `?`-free marker begins at or before that `?`. */
  lemma NoMarkerBeforeQuery(token: string, tail: string, marker: string)
    requires |marker| > 0 && marker[|marker| - 1] !in token && '?' !in marker
    requires |tail| > 0 && tail[0] == '?'
    ensures forall j :: 0 <= j <= |token| ==> !OccursAt(token + tail, marker, j)
  {
    var rest := token + tail;
    var n := |marker| - 1;
    forall j | 0 <= j <= |token|
      ensures !OccursAt(rest, marker, j)
    {
      if j + |marker| <= |rest| {
        var w := rest[j..j + |marker|];
        if j + n < |token| {
          assert w[n] == token[j + n];
          assert token[j + n] in token;
          assert w[n] != marker[n];
        } else {
          assert w[|token| - j] == tail[0];
          assert marker[|token| - j] in marker;
          assert w[|token| - j] != marker[|token| - j];
        }
      }
    }
  }

  /** The first occurrence of `marker` in `scheme + marker + rest` is right
      after the scheme when the scheme lacks the marker's first character. */
  lemma MarkerAfterScheme(scheme: string, marker: string, rest: string)
    requires |marker| > 0 && marker[0] !in scheme
    ensures IndexOf(scheme + marker + rest, marker) == Some(|scheme|)
  {
    var code := scheme + marker + rest;
    assert code[|scheme|..|scheme| + |marker|] == marker;
    forall j | 0 <= j < |scheme|
      ensures !OccursAt(code, marker, j)
    {
      assert code[j] == scheme[j];
      assert scheme[j] in scheme;
      if j + |marker| <= |code| {
        assert code[j..j + |marker|][0] == code[j];
      }
    }
    FirstOccurrence(code, marker, |scheme|);
  }

  /** What follows that first marker is `rest`. */
  lemma SplitAfterMarker(scheme: string, marker: string, rest: string)
    requires IndexOf(scheme + marker + rest, marker) == Some(|scheme|)
    ensures SplitSecond(scheme + marker + rest, marker) == SplitFirst(rest, marker)
  {
    assert (scheme + marker + rest)[|scheme| + |marker|..] == rest;
  }

  /** getWhatsAppGroupLink: the configured link (`env`, empty when unset) or the default. */
  function GetWhatsAppGroupLink(env: string): (r: string)
    ensures r != ""
    ensures env != "" ==> r == env
  {
    if env != "" then env else DefaultGroupLink
  }

  /** Without configuration the group link always exists and names the default group. */
  lemma DefaultGroupLinkToken(message: string)
    ensures GenerateWhatsAppGroupLink(GetWhatsAppGroupLink(""), message) ==
      Some(GroupHost + DefaultGroupToken + TextParam + EncodeURIComponent(message))
  {
    InviteUrlRoundTrip(DefaultGroupToken, "");
  }

  /** Reads a `wa.me` link back: the digits before the first `?` and the
      decoded bytes of the `text` parameter. */
  function ParseWaMeLink(link: string): Option<(string, seq<Byte>)> {
    ParseLink(link, WaMe, TextParam)
  }

  /** The reader for links of the form `pre + <digits> + param + <encoded>`. */
  function ParseLink(link: string, pre: string, param: string): Option<(string, seq<Byte>)> {
    if |link| < |pre| || link[..|pre|] != pre then None
    else
      var rest := link[|pre|..];
      match IndexOf(rest, "?")
      case None => None
      case Some(q) =>
        if |rest| < q + |param| || rest[q..q + |param|] != param then None
        else
          match PercentDecode(rest[q + |param|..])
          case None => None
          case Some(bytes) => Some((rest[..q], bytes))
  }

  /** A generated link carries the phone's digits and the message's bytes
      recoverably. */
  lemma WhatsAppLinkRoundTrip(phone: string, message: string)
    requires GenerateWhatsAppLink(phone, message).Some?
    ensures ParseWaMeLink(GenerateWhatsAppLink(phone, message).value) ==
      Some((KeepDigits(phone), Utf8String(message)))
  {
    var digits := KeepDigits(phone);
    var enc := EncodeURIComponent(message);
    ParseComposedLink(digits, enc);
    EncodeDecodeRoundTrip(message);
  }

  lemma ParseComposedLink(digits: string, enc: string)
    requires AllDigits(digits)
    ensures ParseWaMeLink(WaMe + digits + TextParam + enc) == Prepend2(digits, PercentDecode(enc))
  {
    ParseComposed(WaMe, TextParam, digits, enc);
  }

  lemma ParseComposed(pre: string, param: string, digits: string, enc: string)
    requires AllDigits(digits) && |param| > 0 && param[0] == '?'
    ensures ParseLink(pre + digits + param + enc, pre, param) == Prepend2(digits, PercentDecode(enc))
  {
    var rest := digits + (param + enc);
    ComposedPieces(pre, digits, param, enc);
    DigitsHaveNoQuestionMark(digits);
    FirstQuestionMark(digits, param + enc);
  }

  /** Where each piece of `pre + digits + param + enc` sits. */
  lemma ComposedPieces(pre: string, digits: string, param: string, enc: string)
    ensures var rest := digits + (param + enc);
      var link := pre + digits + param + enc;
      |link| >= |pre| && link[..|pre|] == pre && link[|pre|..] == rest &&
      rest[..|digits|] == digits &&
      rest[|digits|..|digits| + |param|] == param &&
      rest[|digits| + |param|..] == enc
  {
    var rest := digits + (param + enc);
    var link := pre + digits + param + enc;
    assert link == pre + rest;
  }

  lemma DigitsHaveNoQuestionMark(digits: string)
    requires AllDigits(digits)
    ensures '?' !in digits
  {
    forall i | 0 <= i < |digits| ensures digits[i] != '?' {
      assert IsDigit(digits[i]);
    }
  }

  function Prepend2(digits: string, bytes: Option<seq<Byte>>): Option<(string, seq<Byte>)> {
    match bytes
    case None => None
    case Some(b) => Some((digits, b))
  }
}
