/** The client's address in the `Forwarded` header (RFC 7239): the server reads it, the mirror node client writes it. */
module ForwardedHeader {
  import opened Wrappers

  const MAX_HEADER := 1000
  const MAX_IP := 45

  predicate IpChar(c: char) {
    'a' <= c <= 'f' || 'A' <= c <= 'F' || '0' <= c <= '9' || c == ':' || c == '.'
  }

  predicate ValidIp(ip: string) {
    1 <= |ip| <= MAX_IP && forall i :: 0 <= i < |ip| ==> IpChar(ip[i])
  }

  // The whitespace that `trim` removes, among the characters of a header.
  predicate IsSpace(c: char) {
    c == ' ' || ('\t' <= c <= '\r') || c == '\U{00A0}'
  }

  /******* Texts *******/

  // The text before the first occurrence of a character, or all of it.
  function Before(text: string, c: char): (r: string)
    ensures r <= text && c !in r
    ensures |r| < |text| ==> text[|r|] == c
  {
    if text == [] || text[0] == c then []
    else
      assert text == [text[0]] + text[1..];
      [text[0]] + Before(text[1..], c)
  }

  function TrimStart(text: string): string {
    if text != [] && IsSpace(text[0]) then TrimStart(text[1..]) else text
  }

  function TrimEnd(text: string): (r: string)
    ensures r <= text
  {
    if text != [] && IsSpace(text[|text| - 1]) then TrimEnd(text[..|text| - 1]) else text
  }

  function Trim(text: string): string {
    TrimEnd(TrimStart(text))
  }

  function ToLower(c: char): char {
    if 'A' <= c <= 'Z' then (c as int + 32) as char else c
  }

  predicate StartsWithFor(text: string) {
    |text| >= 4 && ToLower(text[0]) == 'f' && ToLower(text[1]) == 'o' && ToLower(text[2]) == 'r' && text[3] == '='
  }

  // `text.toLowerCase().indexOf('for=')`
  function ForIndex(text: string): (r: Option<nat>)
    ensures r.Some? ==> r.value + 4 <= |text|
  {
    if StartsWithFor(text) then Some(0)
    else if text == [] then None
    else
      var more := ForIndex(text[1..]);
      if more.None? then None else Some(more.value + 1)
  }

  // The name of the parameter, in any case.
  predicate ForName(name: string) {
    |name| == 4 && name[0] in "fF" && name[1] in "oO" && name[2] in "rR" && name[3] == '='
  }

  predicate ForNameAt(text: string, i: nat) {
    i + 4 <= |text| && ForName(text[i..i + 4])
  }

  lemma ForNameFirst(text: string)
    ensures ForNameAt(text, 0) <==> StartsWithFor(text)
  {
    if |text| >= 4 {
      var name := text[0..4];
      assert name[0] == text[0] && name[1] == text[1] && name[2] == text[2] && name[3] == text[3];
    }
  }

  lemma ForNameNext(text: string, i: nat)
    requires text != []
    ensures ForNameAt(text[1..], i) <==> ForNameAt(text, i + 1)
  {
    if i + 5 <= |text| {
      assert text[1..][i..i + 4] == text[i + 1..i + 5];
    }
  }

  // The place found is the first where the name of the parameter stands, in any case, and there is none otherwise.
  lemma {:induction false} ForIndexExact(text: string, j: nat)
    ensures match ForIndex(text)
      case Some(i) => ForNameAt(text, i) && (j < i ==> !ForNameAt(text, j))
      case None => !ForNameAt(text, j)
  {
    ForNameFirst(text);
    if text != [] {
      if j > 0 {
        ForIndexExact(text[1..], j - 1);
        ForNameNext(text, j - 1);
      } else {
        ForIndexExact(text[1..], 0);
      }
      if ForIndex(text[1..]).Some? {
        ForNameNext(text, ForIndex(text[1..]).value);
      }
    }
  }

  predicate EndsUnquoted(c: char) {
    c == ';' || c == ',' || c == ' ' || c == '\t'
  }

  function Unquoted(text: string): (r: string)
    ensures r <= text
    ensures forall i :: 0 <= i < |r| ==> !EndsUnquoted(r[i])
    ensures |r| < |text| ==> EndsUnquoted(text[|r|])
  {
    if text == [] || EndsUnquoted(text[0]) then [] else [text[0]] + Unquoted(text[1..])
  }

  predicate BlankChar(c: char) {
    c in {' ', '\t', '\n', '\U{000B}', '\U{000C}', '\r', '\U{00A0}'}
  }

  predicate Blank(text: string) {
    forall i :: 0 <= i < |text| ==> BlankChar(text[i])
  }

  lemma BlankIff(c: char)
    ensures IsSpace(c) <==> BlankChar(c)
  {
  }

  lemma {:induction false} TrimStartDrops(before: string, text: string)
    requires Blank(before)
    ensures TrimStart(before + text) == TrimStart(text)
  {
    if before == [] {
      assert before + text == text;
    } else {
      BlankIff(before[0]);
      assert (before + text)[1..] == before[1..] + text;
      TrimStartDrops(before[1..], text);
    }
  }

  lemma {:induction false} TrimEndDrops(text: string, after: string)
    requires Blank(after)
    ensures TrimEnd(text + after) == TrimEnd(text)
    decreases |after|
  {
    if after == [] {
      assert text + after == text;
    } else {
      var most := after[..|after| - 1];
      BlankIff(after[|after| - 1]);
      assert (text + after)[..|text + after| - 1] == text + most;
      TrimEndDrops(text, most);
    }
  }

  // Trimming takes the white space off both ends, and no more.
  lemma TrimExact(before: string, text: string, after: string)
    requires forall i :: 0 <= i < |before| ==> BlankChar(before[i])
    requires forall i :: 0 <= i < |after| ==> BlankChar(after[i])
    requires text != [] ==> !BlankChar(text[0]) && !BlankChar(text[|text| - 1])
    ensures Trim(before + text + after) == text
  {
    if text == [] {
      assert before + text + after == before + after;
      TrimStartDrops(before + after, "");
      assert before + after + "" == before + after;
    } else {
      BlankIff(text[0]);
      BlankIff(text[|text| - 1]);
      TrimStartDrops(before, text + after);
      assert before + (text + after) == before + text + after;
      TrimEndDrops(text, after);
    }
  }

  /******* Writing and reading *******/

  function FormatIp(ip: string): string {
    if ':' in ip && !("[" <= ip) then "[" + ip + "]" else ip
  }

  function Forwarded(ip: string): string {
    "for=\"" + FormatIp(ip) + "\""
  }

  function StripBrackets(ip: string): string {
    if |ip| >= 2 && ip[0] == '[' && ip[|ip| - 1] == ']' then ip[1..|ip| - 1] else ip
  }

  // The address in the text after `for=`.
  function ReadValue(value: string): Option<string> {
    if value == [] then None
    else if value[0] == '"' then
      var quoted := Before(value[1..], '"');
      if |quoted| == |value| - 1 then None else Some(StripBrackets(quoted))
    else if value[0] == '[' then
      var inner := Before(value[1..], ']');
      if |inner| == |value| - 1 then None else Some(inner)
    else Some(Unquoted(value))
  }

  function ParseForwardedHeader(header: string): (r: Option<string>)
    ensures r.Some? ==> ValidIp(r.value) && |header| <= MAX_HEADER
  {
    if |header| > MAX_HEADER then None
    else
      var firstEntry := Trim(Before(header, ','));
      var forIndex := ForIndex(firstEntry);
      if firstEntry == [] || forIndex.None? then None
      else
        var ip := ReadValue(firstEntry[forIndex.value + 4..]);
        if ip.None? || !ValidIp(ip.value) then None else ip
  }

  lemma {:induction false} UnquotedIs(text: string, n: nat)
    requires n <= |text| && (forall i :: 0 <= i < n ==> !EndsUnquoted(text[i]))
    requires n == |text| || EndsUnquoted(text[n])
    ensures Unquoted(text) == text[..n]
  {
    if n > 0 {
      UnquotedIs(text[1..], n - 1);
      assert [text[0]] + text[1..][..n - 1] == text[..n];
    }
  }

  // The end of an unquoted value, character by character.
  method UnquotedEnd(entry: string, valueStart: nat) returns (endIndex: nat)
    requires valueStart <= |entry|
    ensures valueStart <= endIndex <= |entry| && entry[valueStart..endIndex] == Unquoted(entry[valueStart..])
  {
    endIndex := valueStart;
    while endIndex < |entry|
      invariant valueStart <= endIndex <= |entry|
      invariant forall i :: valueStart <= i < endIndex ==> !EndsUnquoted(entry[i])
    {
      if EndsUnquoted(entry[endIndex]) {
        break;
      }
      endIndex := endIndex + 1;
    }
    UnquotedIs(entry[valueStart..], endIndex - valueStart);
  }

  method Parse(header: string) returns (ip: Option<string>)
    ensures ip == ParseForwardedHeader(header)
  {
    if |header| > MAX_HEADER {
      return None;
    }
    var firstEntry := Trim(Before(header, ','));
    if firstEntry == [] {
      return None;
    }
    var forIndex := ForIndex(firstEntry);
    if forIndex.None? {
      return None;
    }
    ip := ParseValue(firstEntry, forIndex.value + 4);
    if ip.Some? && !ValidIp(ip.value) {
      return None;
    }
  }

  // What comes before the first occurrence of a character, found by its place.
  lemma BeforeIs(text: string, c: char, n: nat)
    requires n <= |text| && forall i :: 0 <= i < n ==> text[i] != c
    requires n == |text| || text[n] == c
    ensures Before(text, c) == text[..n]
  {
    var found := Before(text, c);
    assert forall i :: 0 <= i < |found| ==> found[i] == text[i] && found[i] != c;
  }

  // `text.indexOf(c, from)`; the length of the text if there is none.
  method IndexFrom(text: string, c: char, from: nat) returns (index: nat)
    requires from <= |text|
    ensures from <= index <= |text| && text[from..index] == Before(text[from..], c)
  {
    index := from;
    while index < |text| && text[index] != c
      invariant from <= index <= |text|
      invariant forall i :: from <= i < index ==> text[i] != c
    {
      index := index + 1;
    }
    BeforeIs(text[from..], c, index - from);
    assert text[from..][..index - from] == text[from..index];
  }

  method ParseValue(entry: string, valueStart: nat) returns (ip: Option<string>)
    requires valueStart <= |entry|
    ensures ip == ReadValue(entry[valueStart..])
  {
    if valueStart >= |entry| {
      return None;
    }
    assert entry[valueStart..][1..] == entry[valueStart + 1..];
    if entry[valueStart] == '"' {
      var closeQuote := IndexFrom(entry, '"', valueStart + 1);
      if closeQuote == |entry| {
        return None;
      }
      var quoted := entry[valueStart + 1..closeQuote];
      if |quoted| >= 2 && quoted[0] == '[' && quoted[|quoted| - 1] == ']' {
        return Some(quoted[1..|quoted| - 1]);
      }
      return Some(quoted);
    }
    if entry[valueStart] == '[' {
      var closeBracket := IndexFrom(entry, ']', valueStart + 1);
      if closeBracket == |entry| {
        return None;
      }
      return Some(entry[valueStart + 1..closeBracket]);
    }
    var endIndex := UnquotedEnd(entry, valueStart);
    return Some(entry[valueStart..endIndex]);
  }

  /******* Round trip *******/

  lemma {:induction false} TrimEndKeeps(text: string, more: string)
    requires text != [] && !IsSpace(text[|text| - 1])
    ensures text <= TrimEnd(text + more)
    decreases |more|
  {
    if more == [] {
      assert text + more == text;
    } else if IsSpace(more[|more| - 1]) {
      assert (text + more)[..|text + more| - 1] == text + more[..|more| - 1];
      TrimEndKeeps(text, more[..|more| - 1]);
    }
  }

  lemma {:induction false} BeforeKeeps(text: string, c: char, more: string)
    requires c !in text
    ensures Before(text + more, c) == text + Before(more, c)
  {
    if text == [] {
      assert text + more == more;
    } else {
      assert text == [text[0]] + text[1..];
      assert (text + more)[1..] == text[1..] + more;
      BeforeKeeps(text[1..], c, more);
    }
  }

  // An entry that begins with the header written for an address.
  lemma EntryReads(ip: string, entry: string)
    requires ValidIp(ip) && Forwarded(ip) <= entry
    ensures ForIndex(entry) == Some(0) && ReadValue(entry[4..]) == Some(ip)
  {
    var text := FormatIp(ip);
    var written := "for=\"" + text + "\"";
    assert entry[..|written|] == written;
    assert entry[0] == 'f' && entry[1] == 'o' && entry[2] == 'r' && entry[3] == '=' && entry[4] == '"';
    var value := entry[4..];
    assert value[0] == '"';
    assert value[1..] == text + ("\"" + entry[|written|..]) by {
      assert entry == written + entry[|written|..];
    }
    NoQuote(ip);
    BeforeKeeps(text, '"', "\"" + entry[|written|..]);
    assert text + [] == text;
    Brackets(ip);
  }

  lemma NoQuote(ip: string)
    requires ValidIp(ip)
    ensures '"' !in FormatIp(ip) && ',' !in Forwarded(ip)
  {
  }

  lemma Brackets(ip: string)
    requires ValidIp(ip)
    ensures StripBrackets(FormatIp(ip)) == ip
  {
    var text := FormatIp(ip);
    if ':' in ip {
      assert ip[0] != '[' by { assert IpChar(ip[0]); }
      assert text == "[" + ip + "]";
      assert text[1..|text| - 1] == ip;
    }
  }

  // Up to 45 characters, each a hexadecimal digit, a colon or a dot.
  predicate Plausible(ip: string) {
    1 <= |ip| <= 45 && forall i :: 0 <= i < |ip| ==>
      '0' <= ip[i] <= '9' || 'a' <= ip[i] <= 'f' || 'A' <= ip[i] <= 'F' || ip[i] == ':' || ip[i] == '.'
  }

  lemma PlausibleIff(ip: string)
    ensures Plausible(ip) <==> ValidIp(ip)
  {
    assert forall i :: 0 <= i < |ip| ==> (IpChar(ip[i]) <==>
      '0' <= ip[i] <= '9' || 'a' <= ip[i] <= 'f' || 'A' <= ip[i] <= 'F' || ip[i] == ':' || ip[i] == '.');
  }

  // An address with a colon is written in brackets, any other without; both are quoted (section 6 of RFC 7239).
  lemma ForwardedForm(ip: string)
    requires Plausible(ip)
    ensures Forwarded(ip) == if ':' in ip then "for=\"" + ("[" + ip + "]") + "\"" else "for=\"" + ip + "\""
  {
    assert ip[0] != '[';
  }

  // The first entry of a header, up to what may be trimmed behind its first parameter.
  lemma FirstEntry(written: string, more: string)
    requires (more == [] || more[0] in {' ', '\t', ';', ','}) && ',' !in written && written != []
    requires !IsSpace(written[0]) && !IsSpace(written[|written| - 1])
    ensures var entry := Trim(Before(written + more, ','));
      && written <= entry && (|entry| > |written| ==> entry[|written|] in {' ', '\t', ';'})
  {
    BeforeKeeps(written, ',', more);
    var rest := Before(more, ',');
    var entry := written + rest;
    assert TrimStart(entry) == entry;
    TrimEndKeeps(written, rest);
    if |Trim(entry)| > |written| {
      assert Trim(entry)[|written|] == entry[|written|] == rest[0] == more[0];
    }
  }

  // Whatever follows it, be it white space, further parameters or further hops, the server reads back the address the
  // client wrote, exactly when it is a plausible address and the header is not too long.
  lemma ForwardedRoundTripIff(ip: string, more: string)
    requires more == [] || more[0] in {' ', '\t', ';', ','}
    ensures var header := Forwarded(ip) + more;
      ParseForwardedHeader(header) == Some(ip) <==> Plausible(ip) && |header| <= 1000
  {
    if ValidIp(ip) {
      NoQuote(ip);
      FirstEntry(Forwarded(ip), more);
      EntryReads(ip, Trim(Before(Forwarded(ip) + more, ',')));
    }
    PlausibleIff(ip);
  }

  /******* Other writers *******/

  lemma UnquotedReads(name: string, ip: string, entry: string)
    requires ValidIp(ip) && ForName(name) && name + ip <= entry
    requires |entry| > 4 + |ip| ==> entry[4 + |ip|] in {' ', '\t', ';'}
    ensures ForIndex(entry) == Some(0) && ReadValue(entry[4..]) == Some(ip)
  {
    var written := name + ip;
    assert entry[..|written|] == written;
    assert entry[..4] == name by { assert entry[..|written|][..4] == name; }
    var value := entry[4..];
    assert value[..|ip|] == ip by { assert entry[..|written|][4..] == ip; }
    assert forall i :: 0 <= i < |ip| ==> value[i] == ip[i] && IpChar(value[i]);
    UnquotedIs(value, |ip|);
  }

  lemma IpPlain(ip: string)
    requires ValidIp(ip)
    ensures ',' !in ip && !IsSpace(ip[|ip| - 1])
  {
    assert IpChar(ip[|ip| - 1]);
  }

  // A header that gives the address without quotes, as for an IPv4 address.
  lemma UnquotedRoundTripIff(name: string, ip: string, more: string)
    requires ForName(name) && (more == [] || more[0] in {' ', '\t', ';', ','})
    ensures var header := name + ip + more;
      ParseForwardedHeader(header) == Some(ip) <==> Plausible(ip) && |header| <= 1000
  {
    if ValidIp(ip) {
      var written := name + ip;
      IpPlain(ip);
      assert ',' !in name by { assert name[3] == '='; }
      assert written[0] == name[0] && written[|written| - 1] == ip[|ip| - 1];
      FirstEntry(written, more);
      UnquotedReads(name, ip, Trim(Before(written + more, ',')));
    }
    PlausibleIff(ip);
  }

  lemma BracketedReads(name: string, ip: string, entry: string)
    requires ValidIp(ip) && ForName(name) && name + "[" + ip + "]" <= entry
    ensures ForIndex(entry) == Some(0) && ReadValue(entry[4..]) == Some(ip)
  {
    var written := name + "[" + ip + "]";
    assert entry[..|written|] == written;
    assert entry[..4] == name by { assert entry[..|written|][..4] == name; }
    assert entry[4] == written[4] == '[';
    var value := entry[4..];
    var tail := value[1..];
    assert tail[..|ip| + 1] == ip + "]" by { assert entry[..|written|][5..] == ip + "]"; }
    assert forall i :: 0 <= i < |ip| ==> tail[i] == (ip + "]")[i] && IpChar(tail[i]);
    assert tail[|ip|] == (ip + "]")[|ip|];
    BeforeIs(tail, ']', |ip|);
    assert tail[..|ip|] == ip by { assert tail[..|ip| + 1][..|ip|] == ip; }
  }

  // A header that gives it in brackets, as for an IPv6 address.
  lemma BracketedRoundTripIff(name: string, ip: string, more: string)
    requires ForName(name) && (more == [] || more[0] in {' ', '\t', ';', ','})
    ensures var header := name + "[" + ip + "]" + more;
      ParseForwardedHeader(header) == Some(ip) <==> Plausible(ip) && |header| <= 1000
  {
    if ValidIp(ip) {
      var written := name + "[" + ip + "]";
      assert written[0] == name[0] && written[|written| - 1] == ']';
      FirstEntry(written, more);
      BracketedReads(name, ip, Trim(Before(written + more, ',')));
    }
    PlausibleIff(ip);
  }

  lemma UnclosedValue(open: char, tail: string)
    requires (open == '"' && '"' !in tail) || (open == '[' && ']' !in tail)
    ensures ReadValue([open] + tail) == None
  {
    assert ([open] + tail)[1..] == tail;
    BeforeIs(tail, if open == '"' then '"' else ']', |tail|);
  }

  lemma OnlyEntry(written: string, text: string) returns (rest: string)
    requires ',' !in written && ',' !in text && written != []
    requires !IsSpace(written[0]) && !IsSpace(written[|written| - 1])
    ensures Trim(Before(written + text, ',')) == written + rest && rest <= text
  {
    var header := written + text;
    BeforeIs(header, ',', |header|);
    assert header[..|header|] == header;
    assert TrimStart(header) == header;
    TrimEndKeeps(written, text);
    rest := TrimEnd(header)[|written|..];
  }

  lemma NameFirst(name: string, value: string)
    requires ForName(name)
    ensures ForIndex(name + value) == Some(0) && (name + value)[4..] == value
  {
    assert (name + value)[0..4] == name;
    ForNameFirst(name + value);
  }

  // A quote or a bracket that is never closed gives no address.
  lemma UnclosedRejected(name: string, open: char, text: string)
    requires ForName(name) && ',' !in text
    requires (open == '"' && '"' !in text) || (open == '[' && ']' !in text)
    ensures ParseForwardedHeader(name + [open] + text) == None
  {
    var rest := OnlyEntry(name + [open], text);
    assert name + [open] + rest == name + ([open] + rest);
    NameFirst(name, [open] + rest);
    UnclosedValue(open, rest);
  }
}
