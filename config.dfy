/**
 * The list-valued settings of the backend (backend/app/config.py): `allowed_origins_list`
 * and `allowed_extensions_list`, which split a comma-separated setting with Python's
 * `str.split(",")` and `str.strip()` each piece.
 */
module Config {
  import opened Seqs

  /** The two comma-separated settings the list properties read. */
  datatype Settings = Settings(allowedOrigins: string, allowedExtensions: string)

  /** The declared defaults. */
  const DefaultOrigins := "http://localhost:3000"
  const DefaultExtensions := "pdf,png,jpg,jpeg,gif,mp4,mov"
  const DefaultSettings := Settings(DefaultOrigins, DefaultExtensions)

  // ---------------------------------------------------------------------------------------
  // str.split(",")
  // ---------------------------------------------------------------------------------------

  /** `s.split(",")`: the maximal comma-free pieces between the commas, empty pieces kept. */
  function Split(s: string): (parts: seq<string>)
    ensures |parts| >= 1
    decreases |s|
  {
    if s == [] then [""]
    else
      var rest := Split(s[1..]);
      if s[0] == ',' then [""] + rest
      else [[s[0]] + rest[0]] + rest[1..]
  }

  /** There is one more piece than there are commas, and no piece holds a comma. */
  lemma {:induction false} SplitShape(s: string)
    ensures |Split(s)| == multiset(s)[','] + 1
    ensures forall k :: 0 <= k < |Split(s)| ==> ',' !in Split(s)[k]
    decreases |s|
  {
    if s != [] {
      SplitShape(s[1..]);
      assert s == [s[0]] + s[1..];
    }
  }

  /** `",".join(parts)`. */
  function Join(parts: seq<string>): string
    requires |parts| >= 1
  {
    if |parts| == 1 then parts[0] else parts[0] + "," + Join(parts[1..])
  }

  /** Putting a character in front of the first piece puts it in front of the joined string. */
  lemma JoinPrependChar(c: char, parts: seq<string>)
    requires |parts| >= 1
    ensures Join([[c] + parts[0]] + parts[1..]) == [c] + Join(parts)
  {
    var longer := [[c] + parts[0]] + parts[1..];
    if |parts| > 1 {
      var first, tail := parts[0], Join(parts[1..]);
      assert Join(longer) == ([c] + first) + "," + tail by {
        assert longer[1..] == parts[1..];
      }
      AppendAssoc([c], first, ",");
      AppendAssoc([c], first + ",", tail);
    }
  }

  /** Joining the pieces with commas gives back the setting. */
  lemma {:induction false} JoinSplit(s: string)
    ensures Join(Split(s)) == s
    decreases |s|
  {
    if s != [] {
      JoinSplit(s[1..]);
      var rest := Split(s[1..]);
      assert [s[0]] + s[1..] == s;
      if s[0] == ',' {
        JoinCons("", rest);
        assert "" + "," == [s[0]];
      } else {
        JoinPrependChar(s[0], rest);
      }
    }
  }

  /** A comma-free string is a single piece. */
  lemma {:induction false} SplitNoComma(s: string)
    requires ',' !in s
    ensures Split(s) == [s]
  {
    if s != [] {
      assert ',' !in s[1..] by {
        assert forall c :: c in s[1..] ==> c in s;
      }
      SplitNoComma(s[1..]);
      assert [s[0]] + s[1..] == s;
    }
  }

  /** A comma-free piece followed by a comma splits off as the first piece. */
  lemma {:induction false} SplitAfterPiece(p: string, rest: string)
    requires ',' !in p
    ensures Split(p + "," + rest) == [p] + Split(rest)
  {
    if p == [] {
      assert p + "," + rest == [','] + rest;
      assert ([','] + rest)[1..] == rest;
    } else {
      assert (p + "," + rest)[1..] == p[1..] + "," + rest;
      assert ',' !in p[1..] by {
        assert forall c :: c in p[1..] ==> c in p;
      }
      SplitAfterPiece(p[1..], rest);
      assert [p[0]] + p[1..] == p;
    }
  }

  /** Splitting a comma-join of comma-free pieces gives back the pieces. */
  lemma {:induction false} SplitJoin(parts: seq<string>)
    requires |parts| >= 1
    requires forall k :: 0 <= k < |parts| ==> ',' !in parts[k]
    ensures Split(Join(parts)) == parts
  {
    if |parts| == 1 {
      SplitNoComma(parts[0]);
    } else {
      SplitJoin(parts[1..]);
      SplitAfterPiece(parts[0], Join(parts[1..]));
    }
  }

  // ---------------------------------------------------------------------------------------
  // str.strip()
  // ---------------------------------------------------------------------------------------

  /** Python's `str.isspace()`: ASCII whitespace, the separators 0x1C-0x1F and U+0085, and Unicode spaces. */
  predicate IsSpace(c: char) {
    || c == ' ' || ('\t' <= c <= '\r')                  // space, tab, newline, vertical tab, form feed, return
    || ('\U{1C}' <= c <= '\U{1F}') || c == '\U{85}'      // file, group, record and unit separators; next line
    || c == '\U{A0}' || c == '\U{1680}' || ('\U{2000}' <= c <= '\U{200A}')
    || c == '\U{2028}' || c == '\U{2029}' || c == '\U{202F}' || c == '\U{205F}' || c == '\U{3000}'
  }

  ghost predicate AllSpace(s: string) {
    forall k :: 0 <= k < |s| ==> IsSpace(s[k])
  }

  /** Neither the first nor the last character is whitespace. */
  predicate IsStripped(s: string) {
    s == [] || (!IsSpace(s[0]) && !IsSpace(s[|s| - 1]))
  }

  /** How many whitespace characters the string starts with. */
  function LeadingSpaces(s: string): (n: nat)
    ensures n <= |s|
    decreases |s|
  {
    if s != [] && IsSpace(s[0]) then 1 + LeadingSpaces(s[1..]) else 0
  }

  /** How many whitespace characters the string ends with. */
  function TrailingSpaces(s: string): (n: nat)
    ensures n <= |s|
    decreases |s|
  {
    if s != [] && IsSpace(s[|s| - 1]) then 1 + TrailingSpaces(s[..|s| - 1]) else 0
  }

  /** The leading count covers whitespace only and stops at the first other character. */
  lemma {:induction false} LeadingSpacesSpec(s: string)
    ensures AllSpace(s[..LeadingSpaces(s)])
    ensures LeadingSpaces(s) < |s| ==> !IsSpace(s[LeadingSpaces(s)])
    decreases |s|
  {
    if s != [] && IsSpace(s[0]) {
      LeadingSpacesSpec(s[1..]);
      assert forall k :: 1 <= k < 1 + LeadingSpaces(s[1..]) ==> s[k] == s[1..][k - 1];
    }
  }

  /** The trailing count covers whitespace only and stops at the last other character. */
  lemma {:induction false} TrailingSpacesSpec(s: string)
    ensures AllSpace(s[|s| - TrailingSpaces(s)..])
    ensures TrailingSpaces(s) < |s| ==> !IsSpace(s[|s| - TrailingSpaces(s) - 1])
    decreases |s|
  {
    if s != [] && IsSpace(s[|s| - 1]) {
      var t := s[..|s| - 1];
      TrailingSpacesSpec(t);
      assert forall k :: |t| - TrailingSpaces(t) <= k < |t| ==> s[k] == t[k];
    }
  }

  /** `s.strip()`: the stretch between the leading and the trailing whitespace. */
  function Strip(s: string): (r: string)
    ensures IsStripped(r)
  {
    var i := LeadingSpaces(s);
    var t := s[i..];
    LeadingSpacesSpec(s);
    TrailingSpacesSpec(t);
    t[..|t| - TrailingSpaces(t)]
  }

  /**
   * What strip removes is whitespace at both ends, and what it keeps is the stretch that
   * lies between them.
   */
  lemma StripSpec(s: string)
    ensures exists i, j :: 0 <= i <= j <= |s| && Strip(s) == s[i..j] && AllSpace(s[..i]) && AllSpace(s[j..])
  {
    var i := LeadingSpaces(s);
    var t := s[i..];
    var j := |s| - TrailingSpaces(t);
    LeadingSpacesSpec(s);
    TrailingSpacesSpec(t);
    assert Strip(s) == s[i..j];
    assert s[j..] == t[|t| - TrailingSpaces(t)..];
  }

  /** A string that already has no whitespace at either end is unchanged by strip. */
  lemma StripStripped(s: string)
    requires IsStripped(s)
    ensures Strip(s) == s
  {
  }

  /** Stripping twice is stripping once. */
  lemma StripIdempotent(s: string)
    ensures Strip(Strip(s)) == Strip(s)
  {
    StripStripped(Strip(s));
  }

  // ---------------------------------------------------------------------------------------
  // The list properties
  // ---------------------------------------------------------------------------------------

  /** `[item.strip() for item in s.split(",")]`. */
  function ParseList(s: string): seq<string> {
    Map(Strip, Split(s))
  }

  /** A comma-free string stays comma-free once stripped. */
  lemma StripNoComma(s: string)
    requires ',' !in s
    ensures ',' !in Strip(s)
  {
    StripSpec(s);
    var i, j :| 0 <= i <= j <= |s| && Strip(s) == s[i..j];
    assert forall c :: c in s[i..j] ==> c in s;
  }

  /**
   * One entry per comma-separated piece plus one, each the stripped piece at the same
   * position (so in the setting's order), none holding a comma or starting or ending with
   * whitespace; and the pieces joined by commas give back the setting.
   */
  lemma ParseListShape(s: string)
    ensures |ParseList(s)| == multiset(s)[','] + 1
    ensures forall k :: 0 <= k < |ParseList(s)| ==> ParseList(s)[k] == Strip(Split(s)[k])
    ensures forall k :: 0 <= k < |ParseList(s)| ==> ',' !in ParseList(s)[k] && IsStripped(ParseList(s)[k])
    ensures Join(Split(s)) == s
  {
    SplitShape(s);
    JoinSplit(s);
    forall k | 0 <= k < |Split(s)| ensures ',' !in Strip(Split(s)[k]) {
      StripNoComma(Split(s)[k]);
    }
  }

  /** `""` gives one empty entry. */
  lemma ParseEmpty()
    ensures ParseList("") == [""]
  {
  }

  function AllowedOriginsList(settings: Settings): seq<string> {
    ParseList(settings.allowedOrigins)
  }

  function AllowedExtensionsList(settings: Settings): seq<string> {
    ParseList(settings.allowedExtensions)
  }

  /** Stripped, comma-free entries joined by commas parse back to themselves. */
  lemma ParseJoin(items: seq<string>)
    requires |items| >= 1
    requires forall k :: 0 <= k < |items| ==> ',' !in items[k] && IsStripped(items[k])
    ensures ParseList(Join(items)) == items
  {
    SplitJoin(items);
    forall k | 0 <= k < |items| ensures ParseList(Join(items))[k] == items[k] {
      StripStripped(items[k]);
    }
  }

  /** A stripped, comma-free setting gives a one-entry list holding it. */
  lemma ParseSingle(s: string)
    requires ',' !in s && IsStripped(s)
    ensures ParseList(s) == [s]
  {
    SplitNoComma(s);
    StripStripped(s);
    assert ParseList(s)[0] == s;
  }

  /** The default origins give the single local front-end origin. */
  lemma DefaultOriginsList()
    ensures AllowedOriginsList(DefaultSettings) == [DefaultOrigins]
  {
    // Naming the literal keeps the verifier from unfolding `Split` and `Strip` on its characters.
    var origins :| origins == DefaultOrigins;
    assert ',' !in origins && IsStripped(origins);
    ParseSingle(origins);
  }

  const DefaultExtensionItems: seq<string> := ["pdf", "png", "jpg", "jpeg", "gif", "mp4", "mov"]

  /** Joining a non-empty tail after a first piece puts one comma between them. */
  lemma JoinCons(p: string, rest: seq<string>)
    requires |rest| >= 1
    ensures Join([p] + rest) == p + "," + Join(rest)
  {
    assert ([p] + rest)[1..] == rest;
  }

  // The default extensions joined back, one file type at a time from the end. Each step is
  // its own lemma so that the verifier unfolds `Join` once per proof, not along the whole list.

  lemma JoinedFromMp4()
    ensures Join(["mp4", "mov"]) == "mp4,mov"
  {
    JoinCons("mp4", ["mov"]);
  }

  lemma JoinedFromGif()
    ensures Join(["gif", "mp4", "mov"]) == "gif,mp4,mov"
  {
    JoinedFromMp4();
    JoinCons("gif", ["mp4", "mov"]);
  }

  lemma JoinedFromJpeg()
    ensures Join(["jpeg", "gif", "mp4", "mov"]) == "jpeg,gif,mp4,mov"
  {
    JoinedFromGif();
    JoinCons("jpeg", ["gif", "mp4", "mov"]);
  }

  lemma JoinedFromJpg()
    ensures Join(["jpg", "jpeg", "gif", "mp4", "mov"]) == "jpg,jpeg,gif,mp4,mov"
  {
    JoinedFromJpeg();
    JoinCons("jpg", ["jpeg", "gif", "mp4", "mov"]);
  }

  lemma JoinedFromPng()
    ensures Join(["png", "jpg", "jpeg", "gif", "mp4", "mov"]) == "png,jpg,jpeg,gif,mp4,mov"
  {
    JoinedFromJpg();
    JoinCons("png", ["jpg", "jpeg", "gif", "mp4", "mov"]);
  }

  lemma DefaultExtensionsJoined()
    ensures Join(DefaultExtensionItems) == DefaultExtensions
  {
    JoinedFromPng();
    JoinCons("pdf", ["png", "jpg", "jpeg", "gif", "mp4", "mov"]);
  }

  lemma DefaultExtensionItemsClean()
    ensures forall k :: 0 <= k < |DefaultExtensionItems| ==>
      ',' !in DefaultExtensionItems[k] && IsStripped(DefaultExtensionItems[k])
  {
    assert IsStripped("pdf") && IsStripped("png") && IsStripped("jpg") && IsStripped("jpeg");
    assert IsStripped("gif") && IsStripped("mp4") && IsStripped("mov");
  }

  /** The default extensions give seven entries, the listed file types in order. */
  lemma DefaultExtensionsList()
    ensures AllowedExtensionsList(DefaultSettings) == DefaultExtensionItems
    ensures |AllowedExtensionsList(DefaultSettings)| == 7
  {
    DefaultExtensionsJoined();
    DefaultExtensionItemsClean();
    ParseJoin(DefaultExtensionItems);
  }
}
