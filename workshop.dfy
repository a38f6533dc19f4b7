/**
 * Steam Workshop link handling of `com.zomdroid.fragments.WorkshopFragment`:
 * the file-ID extraction, which behaves as a `find()` of the regular
 * expression `[?&]id=(\d+)`, and the download button's decision between
 * "no link", "invalid link" and the command preview.
 */
module Workshop {
  import opened Wrappers

  // ---------------------------------------------------------------------------
  // File-ID extraction
  // ---------------------------------------------------------------------------

  /** `\d` without Unicode classes: the ASCII digits. */
  predicate IsDigit(c: char)
  {
    '0' <= c <= '9'
  }

  /** `[?&]id=\d` matches at position `i`. */
  predicate MatchesAt(url: string, i: nat)
  {
    i + 4 < |url|
    && (url[i] == '?' || url[i] == '&')
    && url[i + 1] == 'i' && url[i + 2] == 'd' && url[i + 3] == '='
    && IsDigit(url[i + 4])
  }

  /** The end of the longest run of digits starting at `j` (greedy `\d+`). */
  function DigitRunEnd(url: string, j: nat): (k: nat)
    requires j <= |url|
    ensures j <= k <= |url|
    ensures forall t :: j <= t < k ==> IsDigit(url[t])
    ensures k == |url| || !IsDigit(url[k])
    decreases |url| - j
  {
    if j < |url| && IsDigit(url[j]) then DigitRunEnd(url, j + 1) else j
  }

  /** The scan of `Matcher.find()`: the first start position, from `from` on, where the pattern matches. */
  function FindMatch(url: string, from: nat): (r: Option<nat>)
    requires from <= |url|
    ensures r.Some? ==> from <= r.value < |url| && MatchesAt(url, r.value)
    ensures forall j :: from <= j < |url| && (r.None? || j < r.value) ==> !MatchesAt(url, j)
    decreases |url| - from
  {
    if from == |url| then None
    else if MatchesAt(url, from) then Some(from)
    else FindMatch(url, from + 1)
  }

  /** `i` is the leftmost match of the pattern. */
  ghost predicate LeftmostMatch(url: string, i: nat)
  {
    MatchesAt(url, i) && forall j :: 0 <= j < i ==> !MatchesAt(url, j)
  }

  /** `id` is group 1 of the match at `i`: non-empty, all digits, and not followed by a digit. */
  ghost predicate IsIdAt(url: string, i: nat, id: string)
  {
    && MatchesAt(url, i)
    && 0 < |id|
    && i + 4 + |id| <= |url|
    && id == url[i + 4 .. i + 4 + |id|]
    && (forall t :: 0 <= t < |id| ==> IsDigit(id[t]))
    && (i + 4 + |id| == |url| || !IsDigit(url[i + 4 + |id|]))
  }

  /** `extractWorkshopFileId`: group 1 of the leftmost match, or `None` for `null`. */
  function ExtractWorkshopFileId(url: string): (r: Option<string>)
    ensures r.None? <==> forall i :: 0 <= i < |url| ==> !MatchesAt(url, i)
    ensures r.Some? ==> exists i :: LeftmostMatch(url, i) && IsIdAt(url, i, r.value)
  {
    match FindMatch(url, 0)
    case None => None
    case Some(i) =>
      var id := url[i + 4 .. DigitRunEnd(url, i + 4)];
      assert IsIdAt(url, i, id);
      Some(id)
  }

  /** A maximal digit run has one end. */
  lemma DigitRunEndUnique(url: string, j: nat, k: nat)
    requires j <= k <= |url|
    requires forall t :: j <= t < k ==> IsDigit(url[t])
    requires k == |url| || !IsDigit(url[k])
    ensures DigitRunEnd(url, j) == k
  {
  }

  /** The leftmost match is the one `find()` reports. */
  lemma FindMatchLeftmost(url: string, i: nat)
    requires LeftmostMatch(url, i)
    ensures FindMatch(url, 0) == Some(i)
  {
  }

  /** The position and the group of a match determine each other. */
  lemma IdAtUnique(url: string, i: nat, id1: string, id2: string)
    requires IsIdAt(url, i, id1) && IsIdAt(url, i, id2)
    ensures id1 == id2
  {
    DigitRunEndUnique(url, i + 4, i + 4 + |id1|);
    DigitRunEndUnique(url, i + 4, i + 4 + |id2|);
  }

  /** A non-null result is the whole digit run after the leftmost `?id=` or `&id=` that has one. */
  lemma ExtractCharacterised(url: string, i: nat, id: string)
    requires LeftmostMatch(url, i) && IsIdAt(url, i, id)
    ensures ExtractWorkshopFileId(url) == Some(id)
  {
    FindMatchLeftmost(url, i);
    DigitRunEndUnique(url, i + 4, i + 4 + |id|);
  }

  /** A match found in an infix of `u` is a match of `u`, and a match of `u` inside the infix is one of the infix. */
  lemma MatchesAtInfix(u: string, a: nat, r: string, j: nat)
    requires a + |r| <= |u| && r == u[a .. a + |r|]
    ensures MatchesAt(r, j) ==> MatchesAt(u, a + j)
    ensures MatchesAt(u, a + j) && j + 4 < |r| ==> MatchesAt(r, j)
  {
    if j + 4 < |r| {
      assert r[j] == u[a + j] && r[j + 1] == u[a + j + 1] && r[j + 2] == u[a + j + 2];
      assert r[j + 3] == u[a + j + 3] && r[j + 4] == u[a + j + 4];
    }
  }

  /** A prefix with neither '?' nor '&' is skipped by the scan. */
  lemma SkipPrefix(p: string, s: string)
    requires '?' !in p && '&' !in p
    ensures FindMatch(p + s, 0) == match FindMatch(s, 0) case None => None case Some(i) => Some(|p| + i)
  {
    var u := p + s;
    assert s == u[|p| .. |p| + |s|];
    forall j | 0 <= j < |u| && MatchesAt(u, j)
      ensures |p| <= j && MatchesAt(s, j - |p|)
    {
      assert u[j] !in p;
      MatchesAtInfix(u, |p|, s, j - |p|);
    }
    match FindMatch(s, 0)
    case None =>
    case Some(i) =>
      MatchesAtInfix(u, |p|, s, i);
      FindMatchLeftmost(u, |p| + i);
  }

  /** A digit run inside an infix that is not followed by a digit ends at the same place in the whole text. */
  lemma DigitRunInInfix(u: string, a: nat, r: string, j: nat)
    requires a + |r| <= |u| && r == u[a .. a + |r|]
    requires a + |r| == |u| || !IsDigit(u[a + |r|])
    requires a <= j <= a + |r|
    ensures DigitRunEnd(u, j) <= a + |r|
    ensures DigitRunEnd(r, j - a) == DigitRunEnd(u, j) - a
    ensures r[j - a .. DigitRunEnd(r, j - a)] == u[j .. DigitRunEnd(u, j)]
  {
    var k := DigitRunEnd(r, j - a);
    assert forall t :: j - a <= t < k ==> u[a + t] == r[t];
    assert k < |r| ==> u[a + k] == r[k];
    DigitRunEndUnique(u, j, a + k);
    assert r[j - a .. k] == u[j .. a + k];
  }

  /** A prefix with neither '?' nor '&' does not change the extracted ID. */
  lemma ExtractAfterPrefix(p: string, s: string)
    requires '?' !in p && '&' !in p
    ensures ExtractWorkshopFileId(p + s) == ExtractWorkshopFileId(s)
  {
    SkipPrefix(p, s);
    match FindMatch(s, 0)
    case None =>
    case Some(i) =>
      assert s == (p + s)[|p| .. |p| + |s|];
      DigitRunInInfix(p + s, |p|, s, |p| + i + 4);
  }

  /** The query part of the documented example. */
  lemma ExampleQuery()
    ensures ExtractWorkshopFileId("?id=123456789") == Some("123456789")
  {
    var query := "?id=123456789";
    assert query[4 .. 13] == "123456789";
    assert IsIdAt(query, 0, "123456789");
    ExtractCharacterised(query, 0, "123456789");
  }

  /** Neither the host nor the path of the documented example holds '?' or '&'. */
  lemma ExamplePrefixes()
    ensures '?' !in "https://steamcommunity.com/" && '&' !in "https://steamcommunity.com/"
    ensures '?' !in "sharedfiles/filedetails/" && '&' !in "sharedfiles/filedetails/"
  {
  }

  /** Two prefixes with neither '?' nor '&' do not change the extracted ID. */
  lemma ExtractAfterPrefixes(host: string, path: string, query: string)
    requires '?' !in host && '&' !in host
    requires '?' !in path && '&' !in path
    ensures ExtractWorkshopFileId(host + (path + query)) == ExtractWorkshopFileId(query)
  {
    ExtractAfterPrefix(path, query);
    ExtractAfterPrefix(host, path + query);
  }

  /** The documented example URL is its host, its path and its query. */
  lemma ExampleSplit()
    ensures ExtractWorkshopFileId("https://steamcommunity.com/sharedfiles/filedetails/?id=123456789")
            == ExtractWorkshopFileId("https://steamcommunity.com/" + ("sharedfiles/filedetails/" + "?id=123456789"))
  {
    assert "https://steamcommunity.com/sharedfiles/filedetails/?id=123456789"
        == "https://steamcommunity.com/" + ("sharedfiles/filedetails/" + "?id=123456789");
  }

  /** The example of the method's documentation. */
  lemma DocumentedExample()
    ensures ExtractWorkshopFileId("https://steamcommunity.com/sharedfiles/filedetails/?id=123456789")
            == Some("123456789")
  {
    ExamplePrefixes();
    ExampleQuery();
    ExtractAfterPrefixes("https://steamcommunity.com/", "sharedfiles/filedetails/", "?id=123456789");
    ExampleSplit();
  }

  /** Edge cases: a bare `id=` does not match, and a match needs at least one digit. */
  lemma MatchEdgeCases()
    ensures ExtractWorkshopFileId("id=42") == None
    ensures ExtractWorkshopFileId("?id=") == None
    ensures ExtractWorkshopFileId("?id=x&id=7") == Some("7")
    ensures ExtractWorkshopFileId("&id=12a") == Some("12")
  {
    var a := "id=42";
    assert forall i :: 0 <= i < |a| ==> !MatchesAt(a, i);
    var c := "?id=x&id=7";
    assert LeftmostMatch(c, 5);
    assert IsIdAt(c, 5, "7");
    ExtractCharacterised(c, 5, "7");
    var d := "&id=12a";
    assert IsIdAt(d, 0, "12");
    ExtractCharacterised(d, 0, "12");
  }

  // ---------------------------------------------------------------------------
  // Java String.trim
  // ---------------------------------------------------------------------------

  /** Java's `trim` removes characters at or below U+0020. */
  predicate IsTrimmed(c: char)
  {
    c <= ' '
  }

  /** The first index from `st` on that is not trimmed. */
  function TrimStart(s: string, st: nat): (r: nat)
    requires st <= |s|
    ensures st <= r <= |s|
    ensures forall t :: st <= t < r ==> IsTrimmed(s[t])
    ensures r == |s| || !IsTrimmed(s[r])
    decreases |s| - st
  {
    if st < |s| && IsTrimmed(s[st]) then TrimStart(s, st + 1) else st
  }

  /** `len` moved down past trimmed characters, not below `st`. */
  function TrimEnd(s: string, st: nat, len: nat): (r: nat)
    requires st <= len <= |s|
    ensures st <= r <= len
    ensures forall t :: r <= t < len ==> IsTrimmed(s[t])
    ensures r == st || !IsTrimmed(s[r - 1])
    decreases len
  {
    if st < len && IsTrimmed(s[len - 1]) then TrimEnd(s, st, len - 1) else len
  }

  /** `r` sits in `s` at offset `a` with only trimmed characters around it. */
  ghost predicate TrimmedAt(s: string, a: nat, r: string)
  {
    && a + |r| <= |s|
    && s[a .. a + |r|] == r
    && (forall t :: 0 <= t < a ==> IsTrimmed(s[t]))
    && (forall t :: a + |r| <= t < |s| ==> IsTrimmed(s[t]))
  }

  /** `String.trim`. */
  function JavaTrim(s: string): (r: string)
    ensures |r| <= |s|
    ensures r == [] || (!IsTrimmed(r[0]) && !IsTrimmed(r[|r| - 1]))
    ensures exists a: nat :: TrimmedAt(s, a, r)
  {
    var st := TrimStart(s, 0);
    var len := TrimEnd(s, st, |s|);
    assert TrimmedAt(s, st, s[st .. len]);
    s[st .. len]
  }

  /** The trimmed text is empty exactly when every character is trimmed. */
  lemma TrimEmptyIffBlank(s: string)
    ensures JavaTrim(s) == [] <==> forall t :: 0 <= t < |s| ==> IsTrimmed(s[t])
  {
    var r := JavaTrim(s);
    var a: nat :| TrimmedAt(s, a, r);
    if r != [] {
      assert s[a] == r[0];
    }
  }

  /** Trimming twice is trimming once. */
  lemma TrimIdempotent(s: string)
    ensures JavaTrim(JavaTrim(s)) == JavaTrim(s)
  {
    var r := JavaTrim(s);
    if r != [] {
      assert TrimStart(r, 0) == 0;
      assert TrimEnd(r, 0, |r|) == |r|;
      assert r[0 .. |r|] == r;
    }
  }

  /** A digit is never trimmed. */
  lemma DigitNotTrimmed(c: char)
    ensures IsDigit(c) ==> !IsTrimmed(c)
  {
  }

  /** No match of the pattern reaches into a trimmed border. */
  lemma MatchInsideBorders(s: string, a: nat, r: string, i: nat)
    requires TrimmedAt(s, a, r)
    requires MatchesAt(s, i)
    ensures a <= i && i + 4 < a + |r| && MatchesAt(r, i - a)
  {
    assert !IsTrimmed(s[i]) && !IsTrimmed(s[i + 4]);
    MatchesAtInfix(s, a, r, i - a);
  }

  /** The digit run of a match ends inside the untrimmed part, at the same place. */
  lemma DigitRunInsideBorders(s: string, a: nat, r: string, j: nat)
    requires TrimmedAt(s, a, r)
    requires a <= j <= a + |r|
    ensures DigitRunEnd(s, j) <= a + |r|
    ensures DigitRunEnd(r, j - a) == DigitRunEnd(s, j) - a
    ensures r[j - a .. DigitRunEnd(r, j - a)] == s[j .. DigitRunEnd(s, j)]
  {
    if a + |r| < |s| {
      DigitNotTrimmed(s[a + |r|]);
    }
    DigitRunInInfix(s, a, r, j);
  }

  /** Surrounding the text with trimmed characters never changes the extracted ID. */
  lemma ExtractInsideBorders(s: string, a: nat, r: string)
    requires TrimmedAt(s, a, r)
    ensures ExtractWorkshopFileId(r) == ExtractWorkshopFileId(s)
  {
    forall j | 0 <= j < |r| && MatchesAt(r, j)
      ensures MatchesAt(s, a + j)
    {
      MatchesAtInfix(s, a, r, j);
    }
    match FindMatch(s, 0)
    case None =>
    case Some(i) =>
      MatchInsideBorders(s, a, r, i);
      assert LeftmostMatch(r, i - a);
      FindMatchLeftmost(r, i - a);
      DigitRunInsideBorders(s, a, r, i + 4);
  }

  /**
   * The handler's trim never changes the extracted ID: the match and its digit
   * run hold no trimmed character.
   */
  lemma ExtractIgnoresTrim(s: string)
    ensures ExtractWorkshopFileId(JavaTrim(s)) == ExtractWorkshopFileId(s)
  {
    var a: nat :| TrimmedAt(s, a, JavaTrim(s));
    ExtractInsideBorders(s, a, JavaTrim(s));
  }

  // ---------------------------------------------------------------------------
  // The download button
  // ---------------------------------------------------------------------------

  const EMPTY_LINK_MESSAGE: string := "Please enter a Workshop link"
  const INVALID_LINK_MESSAGE: string := "Invalid Workshop link. Could not extract file ID."
  const ID_PREFIX: string := "Extracted Workshop file ID: "
  const STEAMCMD_PATH: string :=
    "/data/data/your.package.name/files/box64 /data/data/your.package.name/files/steamcmd.sh"

  /** The click's visible outcome: a toast, or the text put into the output view. */
  datatype ClickOutcome = Toast(message: string) | OutputText(text: string)

  /** The SteamCMD arguments that fetch `fileId` of app 108600 (Project Zomboid). */
  function DownloadItemArgs(fileId: string): string
  {
    " +workshop_download_item 108600 " + fileId + " +quit"
  }

  /** The preview up to the download arguments: the ID line, a heading, and the SteamCMD invocation with its login. */
  function PreviewHead(fileId: string): string
  {
    ID_PREFIX + fileId + "\n\nSteamCMD command preview:\n" + STEAMCMD_PATH + " +login anonymous"
  }

  /**
   * The text shown for an extracted `fileId`: the ID line, then the command line
   * with `downloadDir`, the platform's download directory, appended.
   */
  function PreviewText(fileId: string, downloadDir: string): string
  {
    PreviewHead(fileId) + DownloadItemArgs(fileId) + " (Download dir: " + downloadDir + ")"
  }

  /** `part` occurs in `s` at offset `k`. */
  ghost predicate OccursAt(s: string, k: nat, part: string)
  {
    k + |part| <= |s| && s[k .. k + |part|] == part
  }

  ghost predicate Contains(s: string, part: string)
  {
    exists k :: OccursAt(s, k, part)
  }

  /** A concatenation holds its middle part right after its head. */
  lemma OccursInMiddle(head: string, part: string, tail: string)
    ensures OccursAt(head + part + tail, |head|, part)
  {
    assert (head + part + tail)[|head| .. |head| + |part|] == part;
  }

  /** The preview starts with the ID line and contains the download arguments for that ID. */
  lemma PreviewTextFacts(fileId: string, downloadDir: string)
    ensures ID_PREFIX + fileId <= PreviewText(fileId, downloadDir)
    ensures Contains(PreviewText(fileId, downloadDir), DownloadItemArgs(fileId))
  {
    var head, args := PreviewHead(fileId), DownloadItemArgs(fileId);
    var tail := " (Download dir: " + downloadDir + ")";
    assert PreviewText(fileId, downloadDir) == head + args + tail;
    OccursInMiddle(head, args, tail);
    var line := ID_PREFIX + fileId;
    assert head == line + (head[|line| ..]);
  }

  /** The download button's handler, given the entered text. */
  function OnDownloadClicked(input: string, downloadDir: string): (o: ClickOutcome)
    ensures o.Toast? <==> JavaTrim(input) == []
    ensures o.Toast? ==> o.message == EMPTY_LINK_MESSAGE
    ensures JavaTrim(input) != [] && ExtractWorkshopFileId(input).None? ==>
              o == OutputText(INVALID_LINK_MESSAGE)
    ensures ExtractWorkshopFileId(input).Some? ==>
              var id := ExtractWorkshopFileId(input).value;
              o.OutputText? && ID_PREFIX + id <= o.text
              && Contains(o.text, DownloadItemArgs(id))
  {
    var url := JavaTrim(input);
    ExtractIgnoresTrim(input);
    if url == [] then
      Toast(EMPTY_LINK_MESSAGE)
    else
      match ExtractWorkshopFileId(url)
      case None => OutputText(INVALID_LINK_MESSAGE)
      case Some(fileId) =>
        PreviewTextFacts(fileId, downloadDir);
        OutputText(PreviewText(fileId, downloadDir))
  }
}
