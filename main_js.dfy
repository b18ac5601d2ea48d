/** The client-side helpers of the site script: reading a cookie out of the
    `document.cookie` string (for the CSRF token), and the table search that
    hides the rows not containing the typed text. */
module MainJs {
  import opened Common
  import opened Text
  import opened Tables

  // ---------------------------------------------------------------- strings

  /** `s.split(sep)`: the pieces between separators, in order; a string
      without the separator is one piece, and so is the empty string. */
  function Split(s: string, sep: char): (parts: seq<string>)
    ensures |parts| >= 1
    ensures forall k :: 0 <= k < |parts| ==> sep !in parts[k]
  {
    if s == [] then [""]
    else
      var rest := Split(s[1..], sep);
      if s[0] == sep then [""] + rest
      else [[s[0]] + rest[0]] + rest[1..]
  }

  /** `parts.join(sep)`. */
  function Join(parts: seq<string>, sep: char): string
    requires |parts| >= 1
  {
    if |parts| == 1 then parts[0] else parts[0] + [sep] + Join(parts[1..], sep)
  }

  /** Splitting and joining back gives the original string. */
  lemma {:induction false} SplitJoin(s: string, sep: char)
    ensures Join(Split(s, sep), sep) == s
  {
    if s != [] {
      var rest := Split(s[1..], sep);
      SplitJoin(s[1..], sep);
      if s[0] == sep {
        assert Split(s, sep)[1..] == rest;
      } else {
        var parts := Split(s, sep);
        if |rest| > 1 {
          assert parts[1..] == rest[1..];
          assert Join(rest, sep) == rest[0] + [sep] + Join(rest[1..], sep);
        }
      }
    }
  }

  /** A string without the separator splits into itself. */
  lemma {:induction false} SplitWithoutSep(s: string, sep: char)
    requires sep !in s
    ensures Split(s, sep) == [s]
  {
    if s != [] {
      assert s[0] in s;
      SplitWithoutSep(s[1..], sep);
      assert [s[0]] + s[1..] == s;
    }
  }

  /** The characters `trim()` removes (the ASCII white space, the no-break
      space and the byte-order mark). */
  predicate IsJsSpace(c: char) {
    c == ' ' || c == '\t' || c == '\n' || c == '\r' || c == '\U{000B}' || c == '\U{000C}'
    || c == '\U{00A0}' || c == '\U{FEFF}'
  }

  function TrimStart(s: string): (r: string)
    ensures |r| <= |s| && r == s[|s| - |r|..]
    ensures r == [] || !IsJsSpace(r[0])
    ensures forall i :: 0 <= i < |s| - |r| ==> IsJsSpace(s[i])
  {
    if s != [] && IsJsSpace(s[0]) then TrimStart(s[1..]) else s
  }

  function TrimEnd(s: string): (r: string)
    ensures |r| <= |s| && r == s[..|r|]
    ensures r == [] || !IsJsSpace(r[|r| - 1])
    ensures forall i :: |r| <= i < |s| ==> IsJsSpace(s[i])
  {
    if s != [] && IsJsSpace(s[|s| - 1]) then TrimEnd(s[..|s| - 1]) else s
  }

  /** `r` sits in `s` at `i`, and everything of `s` before and after it is white space. */
  ghost predicate TrimmedAt(s: string, r: string, i: int) {
    && OccursAt(s, r, i)
    && (forall k :: 0 <= k < i ==> IsJsSpace(s[k]))
    && (forall k :: i + |r| <= k < |s| ==> IsJsSpace(s[k]))
  }

  /** `s.trim()`: `s` with the white space at both ends removed; the result
      neither starts nor ends with white space, and only white space was removed. */
  function Trim(s: string): (r: string)
    ensures r == [] || (!IsJsSpace(r[0]) && !IsJsSpace(r[|r| - 1]))
    ensures exists i :: TrimmedAt(s, r, i)
  {
    var t := TrimStart(s);
    var r := TrimEnd(t);
    TrimBothEnds(s, t, r);
    r
  }

  /** Cutting white space off the front (giving `t`) and then off the back
      (giving `r`) leaves `r` in `s` where `t` starts. */
  lemma TrimBothEnds(s: string, t: string, r: string)
    requires |t| <= |s| && t == s[|s| - |t|..]
    requires forall k :: 0 <= k < |s| - |t| ==> IsJsSpace(s[k])
    requires |r| <= |t| && r == t[..|r|]
    requires forall k :: |r| <= k < |t| ==> IsJsSpace(t[k])
    ensures TrimmedAt(s, r, |s| - |t|)
  {
    var i := |s| - |t|;
    assert s[i..][..|r|] == s[i..i + |r|];
    assert forall k :: i + |r| <= k < |s| ==> s[k] == t[k - i];
  }

  /** A string that neither starts nor ends with white space is its own trim. */
  lemma TrimUntouched(s: string)
    requires s == [] || (!IsJsSpace(s[0]) && !IsJsSpace(s[|s| - 1]))
    ensures Trim(s) == s
  {
  }

  /** Trimming twice is trimming once. */
  lemma TrimIdempotent(s: string)
    ensures Trim(Trim(s)) == Trim(s)
  {
    TrimUntouched(Trim(s));
  }

  /** JavaScript `s.substring(start, end)`: both bounds are clamped to the
      string and swapped when out of order. */
  function Substring(s: string, start: int, end: int): (r: string)
    ensures |r| <= |s|
    ensures 0 <= start <= end <= |s| ==> r == s[start..end]
    ensures 0 <= end <= start <= |s| ==> r == s[end..start]
    ensures start <= 0 && 0 <= end <= |s| ==> r == s[..end]
    ensures 0 <= start <= |s| <= end ==> r == s[start..]
    ensures start <= 0 && |s| <= end ==> r == s
    ensures (start >= |s| && end >= |s|) || (start <= 0 && end <= 0) ==> r == []
  {
    var a := if start < 0 then 0 else if start > |s| then |s| else start;
    var b := if end < 0 then 0 else if end > |s| then |s| else end;
    if a <= b then s[a..b] else s[b..a]
  }

  /** `substring` does not care which bound comes first. */
  lemma SubstringSwaps(s: string, start: int, end: int)
    ensures Substring(s, start, end) == Substring(s, end, start)
  {
  }

  // ---------------------------------------------------------------- getCookie

  /** The test `cookie.substring(0, name.length + 1) === name + '='`. */
  predicate NamesCookie(cookie: string, name: string) {
    Substring(cookie, 0, |name| + 1) == name + "="
  }

  /** The test is exactly "starts with `name=`". */
  lemma NamesCookieIsPrefix(cookie: string, name: string)
    ensures NamesCookie(cookie, name) <==> IsPrefix(name + "=", cookie)
  {
  }

  /** A cookie whose name merely starts with `name` is not the cookie `name`. */
  lemma LongerNameNoMatch(cookie: string, name: string)
    requires |cookie| > |name| && cookie[..|name|] == name && cookie[|name|] != '='
    ensures !NamesCookie(cookie, name)
  {
    NamesCookieIsPrefix(cookie, name);
    assert (name + "=")[|name|] == '=';
  }

  /** `csrftokenX=abc` is not the `csrftoken` cookie. */
  lemma CsrfTokenPrefixExample()
    ensures !NamesCookie("csrftokenX=abc", "csrftoken")
  {
    LongerNameNoMatch("csrftokenX=abc", "csrftoken");
  }

  /** Whether the entry, once trimmed, is the cookie `name`. */
  predicate EntryNames(entry: string, name: string) {
    NamesCookie(Trim(entry), name)
  }

  /** The raw value of an entry: the trimmed entry after `name=`. */
  function EntryValue(entry: string, name: string): string {
    var c := Trim(entry);
    Substring(c, |name| + 1, |c|)
  }

  /** The position of the first entry, at `i` or later, that is the cookie `name`. */
  function FirstNamed(entries: seq<string>, name: string, i: nat): (r: Option<nat>)
    requires i <= |entries|
    ensures r.Some? ==> && i <= r.value < |entries| && EntryNames(entries[r.value], name)
                        && forall j :: i <= j < r.value ==> !EntryNames(entries[j], name)
    ensures r.None? <==> forall j :: i <= j < |entries| ==> !EntryNames(entries[j], name)
  {
    FirstFrom(entries, (e: string) => EntryNames(e, name), i)
  }

  /** One step of the scan: entry `i` either names the cookie or passes the search on. */
  lemma FirstNamedStep(entries: seq<string>, name: string, i: nat)
    requires i < |entries|
    ensures FirstNamed(entries, name, i) ==
      if NamesCookie(Trim(entries[i]), name) then Some(i) else FirstNamed(entries, name, i + 1)
  {
  }

  /** What `getCookie(name)` returns for a given `document.cookie`:
      nothing for an empty cookie string, else the decoded value of the
      first `;`-separated entry that names the cookie. */
  function CookieValue(cookies: string, name: string, decode: string -> string): Option<string> {
    if cookies == "" then None
    else
      var entries := Split(cookies, ';');
      match FirstNamed(entries, name, 0)
      case None => None
      case Some(k) => Some(decode(EntryValue(entries[k], name)))
  }

  /** `getCookie(name)`: scan the entries in order and stop at the first match. */
  method GetCookie(cookies: string, name: string, decode: string -> string) returns (cookieValue: Option<string>)
    ensures cookieValue == CookieValue(cookies, name, decode)
  {
    cookieValue := None;
    if cookies != "" {
      var entries := Split(cookies, ';');
      var i := 0;
      while i < |entries|
        invariant 0 <= i <= |entries|
        invariant cookieValue.None?
        invariant FirstNamed(entries, name, 0) == FirstNamed(entries, name, i)
      {
        FirstNamedStep(entries, name, i);
        var cookie := Trim(entries[i]);
        if Substring(cookie, 0, |name| + 1) == name + "=" {
          cookieValue := Some(decode(Substring(cookie, |name| + 1, |cookie|)));
          break;
        }
        i := i + 1;
      }
    }
  }

  /** With no cookies at all, `getCookie` returns null. */
  lemma NoCookies(name: string, decode: string -> string)
    ensures CookieValue("", name, decode) == None
  {
  }

  /** Otherwise it returns null exactly when no entry, once trimmed, starts with `name=`. */
  lemma CookieAbsent(cookies: string, name: string, decode: string -> string, entries: seq<string>)
    requires cookies != "" && entries == Split(cookies, ';')
    ensures CookieValue(cookies, name, decode).None? <==>
      forall j :: 0 <= j < |entries| ==> !EntryNames(entries[j], name)
  {
    assert CookieValue(cookies, name, decode).None? <==> FirstNamed(entries, name, 0).None?;
  }

  /** A later entry with the same name never overrides the first one. */
  lemma FirstEntryWins(cookies: string, name: string, decode: string -> string, k: nat)
    requires cookies != "" && k < |Split(cookies, ';')| && EntryNames(Split(cookies, ';')[k], name)
    requires forall j :: 0 <= j < k ==> !EntryNames(Split(cookies, ';')[j], name)
    ensures CookieValue(cookies, name, decode) == Some(decode(EntryValue(Split(cookies, ';')[k], name)))
  {
    var entries := Split(cookies, ';');
    var r := FirstNamed(entries, name, 0);
    assert r.Some?;
    assert r.value == k by {
      if r.value < k {
      } else if r.value > k {
      }
    }
  }

  /** The cookie string `name=value` (with nothing to trim) yields the decoded value. */
  lemma CookieRoundTrip(name: string, value: string, decode: string -> string)
    requires ';' !in name && ';' !in value
    requires name == [] || !IsJsSpace(name[0])
    requires value != [] && !IsJsSpace(value[|value| - 1])
    ensures CookieValue(name + "=" + value, name, decode) == Some(decode(value))
  {
    var c := name + "=" + value;
    assert ';' !in c;
    SplitWithoutSep(c, ';');
    CookieEntryValue(name, value);
    FirstEntryWins(c, name, decode, 0);
  }

  /** The single entry `name=value` names the cookie and carries `value`. */
  lemma CookieEntryValue(name: string, value: string)
    requires name == [] || !IsJsSpace(name[0])
    requires value != [] && !IsJsSpace(value[|value| - 1])
    ensures EntryNames(name + "=" + value, name) && EntryValue(name + "=" + value, name) == value
  {
    var c := name + "=" + value;
    assert c[0] == (if name == [] then '=' else name[0]);
    assert c[|c| - 1] == value[|value| - 1];
    TrimUntouched(c);
    KeyValueSlices(name + "=", value);
  }

  /** The two halves of `key + value` as `substring` cuts them. */
  lemma KeyValueSlices(key: string, value: string)
    ensures Substring(key + value, 0, |key|) == key
    ensures Substring(key + value, |key|, |key + value|) == value
  {
    assert (key + value)[..|key|] == key;
    assert (key + value)[|key|..] == value;
  }

  // ---------------------------------------------------------------- table search

  /** Whether a table row stays visible while `term` is typed into the
      search box: its lower-cased text contains the lower-cased term.
      `lower` stands for `toLowerCase`. */
  predicate RowShown(rowText: string, term: string, lower: string -> string) {
    Contains(lower(rowText), lower(term))
  }

  /** A row is shown exactly when the lower-cased term occurs somewhere in its lower-cased text. */
  lemma RowShownIffOccurs(rowText: string, term: string, lower: string -> string)
    ensures RowShown(rowText, term, lower) <==> exists i :: OccursAt(lower(rowText), lower(term), i)
  {
    ContainsIffOccurs(lower(rowText), lower(term));
  }

  /** The rows left visible. */
  function VisibleRows(rows: seq<string>, term: string, lower: string -> string): (r: seq<string>)
    ensures forall x :: x in r <==> x in rows && RowShown(x, term, lower)
  {
    Filter(rows, (x: string) => RowShown(x, term, lower))
  }

  /** An empty search box shows every row. */
  lemma EmptyTermShowsAll(rows: seq<string>, lower: string -> string)
    requires lower("") == ""
    ensures VisibleRows(rows, "", lower) == rows
  {
    forall x | x in rows ensures RowShown(x, "", lower) {
      ContainsEmpty(lower(x));
    }
    FilterKeepsAll(rows, (x: string) => RowShown(x, "", lower));
  }
}
