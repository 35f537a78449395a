/**
 * Who may drive the agent: the set `AUTHORIZED_USERS`, loaded from the
 * authorized-users file and always holding the admin; the admin's `/allow`
 * and `/deny` commands, which change the set and the file together; and the
 * map `settings_access_requests` of pending requests for the settings screen
 * of the mini-app, resolved by the admin's allow/deny buttons.
 */
module Access {
  import opened Wrappers
  import opened Text

  // ------------------------------------------------------------ the authorized-users file

  /** The id a line of the file contributes: the stripped line when it is a non-empty digit string. */
  function LoadedId(line: string): (r: Option<nat>)
    ensures r.Some? <==> IsDigitString(Strip(line))
  {
    ParseNat(Strip(line))
  }

  /** The ids a loading loop collects from `lines`, reading each line with `read`. */
  function Collect(lines: seq<string>, read: string -> Option<nat>): (ids: set<int>)
    ensures forall id :: id in ids ==> id >= 0
    ensures |ids| <= |lines|
  {
    if lines == [] then {}
    else
      var last := lines[|lines| - 1];
      Collect(lines[..|lines| - 1], read) + (if read(last).Some? then {read(last).value as int} else {})
  }

  /** One more line: its id, if it has one, joins the collected ids. */
  lemma CollectSnoc(lines: seq<string>, line: string, read: string -> Option<nat>)
    ensures Collect(lines + [line], read) == Collect(lines, read) + (if read(line).Some? then {read(line).value as int} else {})
  {
    assert (lines + [line])[..|lines|] == lines;
  }

  /** An id is collected exactly when some line reads as it. */
  lemma {:induction false} CollectLines(lines: seq<string>, read: string -> Option<nat>, id: nat)
    ensures id in Collect(lines, read) <==> exists i :: 0 <= i < |lines| && read(lines[i]) == Some(id)
  {
    if lines != [] {
      var init, last := lines[..|lines| - 1], lines[|lines| - 1];
      CollectLines(init, read, id);
      if id in Collect(init, read) {
        var i :| 0 <= i < |init| && read(init[i]) == Some(id);
        assert lines[i] == init[i];
      }
      if exists i :: 0 <= i < |lines| && read(lines[i]) == Some(id) {
        var i :| 0 <= i < |lines| && read(lines[i]) == Some(id);
        if i < |init| {
          assert init[i] == lines[i];
        }
      }
    }
  }

  /** The ids the loading loop of `load_configuration` adds for the lines of the file. */
  function LoadedIds(lines: seq<string>): set<int>
  {
    Collect(lines, LoadedId)
  }

  /** The line `save_authorized_user` appends: the id in decimal and a newline. */
  function IdLine(id: nat): (line: string)
    ensures |line| >= 2 && line[|line| - 1] == '\n'
  {
    NatToString(id) + "\n"
  }

  /** An appended line loads back as the id that was appended. */
  lemma IdLineLoads(id: nat)
    ensures LoadedId(IdLine(id)) == Some(id)
  {
    StripNumeralLine(NatToString(id), '\n');
    ParseNatToString(id);
  }

  /** A line as Python's line iterator yields it from the middle of a file: ending in a newline. */
  predicate EndsLine(line: string)
  {
    line != [] && line[|line| - 1] == '\n'
  }

  /** A file whose every line, the last included, ends in a newline. */
  predicate Terminated(lines: seq<string>)
  {
    forall k :: 0 <= k < |lines| ==> EndsLine(lines[k])
  }

  /** The lines of any file as the line iterator reads them: only the last may lack its newline. */
  predicate WellSplit(lines: seq<string>)
  {
    lines == [] || Terminated(lines[..|lines| - 1])
  }

  /**
   * Writing one newline-terminated line in append mode: the text lands after
   * the file's last character, so an unterminated last line and the new line
   * become one line.
   */
  function AppendLine(lines: seq<string>, line: string): (r: seq<string>)
    ensures Terminated(lines) ==> r == lines + [line]
    ensures WellSplit(lines) && EndsLine(line) ==> Terminated(r)
  {
    if lines != [] && !EndsLine(lines[|lines| - 1]) then
      var joined := lines[|lines| - 1] + line;
      assert EndsLine(line) ==> joined[|joined| - 1] == line[|line| - 1];
      lines[..|lines| - 1] + [joined]
    else lines + [line]
  }

  /** After `/allow` on a file whose lines all end in a newline, loading it again yields the old ids and the new one. */
  lemma AllowPersists(lines: seq<string>, id: nat)
    requires Terminated(lines)
    ensures LoadedIds(AppendLine(lines, IdLine(id))) == LoadedIds(lines) + {id}
  {
    CollectSnoc(lines, IdLine(id), LoadedId);
    IdLineLoads(id);
  }

  /** After `/allow` on a file whose last line has no newline, that line and the new id are read as one line. */
  lemma AllowJoinsLastLine(lines: seq<string>, id: nat)
    requires lines != [] && !EndsLine(lines[|lines| - 1])
    ensures var init, joined := lines[..|lines| - 1], lines[|lines| - 1] + IdLine(id);
      LoadedIds(AppendLine(lines, IdLine(id)))
        == LoadedIds(init) + (if LoadedId(joined).Some? then {LoadedId(joined).value as int} else {})
  {
    CollectSnoc(lines[..|lines| - 1], lines[|lines| - 1] + IdLine(id), LoadedId);
  }

  /** A file holding `5` with no newline: `/allow 7` leaves it authorizing user 57 only. */
  lemma AllowAfterUnterminated()
    ensures LoadedIds(AppendLine(["5"], IdLine(7))) == {57}
  {
    AllowJoinsLastLine(["5"], 7);
    assert NatToString(7) == "7";
    assert ["5"][..0] == [];
    assert "5" + IdLine(7) == "57" + ['\n'];
    StripNumeralLine("57", '\n');
    assert NatToString(57) == "57" by {
      assert DigitChar(57 % 10) == '7' && DigitChar(57 / 10) == '5';
    }
    ParseNatToString(57);
  }

  /** The lines a rewrite of the file keeps: those `keep` accepts, in their order. */
  function Filter(lines: seq<string>, keep: string -> bool): (kept: seq<string>)
    ensures |kept| <= |lines|
    ensures forall k :: 0 <= k < |kept| ==> keep(kept[k])
  {
    if lines == [] then []
    else
      var last := lines[|lines| - 1];
      Filter(lines[..|lines| - 1], keep) + (if keep(last) then [last] else [])
  }

  /** One more line is kept or dropped on its own. */
  lemma FilterSnoc(lines: seq<string>, line: string, keep: string -> bool)
    ensures Filter(lines + [line], keep) == Filter(lines, keep) + (if keep(line) then [line] else [])
  {
    assert (lines + [line])[..|lines|] == lines;
  }

  /** Keeping some lines of a file whose lines all end in a newline leaves such a file. */
  lemma {:induction false} FilterTerminated(lines: seq<string>, keep: string -> bool)
    requires Terminated(lines)
    ensures Terminated(Filter(lines, keep))
  {
    if lines != [] {
      var init := lines[..|lines| - 1];
      assert Terminated(init) by {
        forall k | 0 <= k < |init| ensures EndsLine(init[k]) { assert init[k] == lines[k]; }
      }
      FilterTerminated(init, keep);
    }
  }

  /** Rewriting the kept lines gives a file that reads back as those same lines: only the last may lack a newline. */
  lemma FilterWellSplit(lines: seq<string>, keep: string -> bool)
    requires WellSplit(lines)
    ensures WellSplit(Filter(lines, keep))
  {
    if lines != [] {
      var init := lines[..|lines| - 1];
      FilterTerminated(init, keep);
      var kept := Filter(init, keep);
      if keep(lines[|lines| - 1]) {
        assert Filter(lines, keep)[..|kept|] == kept;
      } else if kept != [] {
        assert Filter(lines, keep)[..|kept| - 1] == kept[..|kept| - 1];
        assert forall k :: 0 <= k < |kept| - 1 ==> kept[..|kept| - 1][k] == kept[k];
      }
    }
  }

  /** The last line of a file, kept or dropped, adds its id to the kept ids or not. */
  lemma FilterStep(lines: seq<string>, read: string -> Option<nat>, keep: string -> bool)
    requires lines != []
    ensures var init, last := lines[..|lines| - 1], lines[|lines| - 1];
      && Collect(lines, read) == Collect(init, read) + (if read(last).Some? then {read(last).value as int} else {})
      && Collect(Filter(lines, keep), read)
         == Collect(Filter(init, keep), read) + (if keep(last) && read(last).Some? then {read(last).value as int} else {})
  {
    var init, last := lines[..|lines| - 1], lines[|lines| - 1];
    var kept := Filter(init, keep);
    if keep(last) {
      assert Filter(lines, keep) == kept + [last];
      CollectSnoc(kept, last, read);
    } else {
      assert Filter(lines, keep) == kept;
    }
  }

  /** Dropping only lines that read as `id` loses no other id and gains none. */
  lemma {:induction false} CollectFilter(lines: seq<string>, read: string -> Option<nat>, keep: string -> bool, id: nat)
    requires forall line :: !keep(line) ==> read(line) == Some(id)
    ensures Collect(Filter(lines, keep), read) <= Collect(lines, read)
    ensures Collect(lines, read) - {id} <= Collect(Filter(lines, keep), read)
  {
    if lines != [] {
      var init, last := lines[..|lines| - 1], lines[|lines| - 1];
      CollectFilter(init, read, keep, id);
      FilterStep(lines, read, keep);
    }
  }

  /** After dropping lines that read as `id`, `id` is still collected exactly when a kept line reads as it. */
  lemma {:induction false} CollectFilterSurvivor(lines: seq<string>, read: string -> Option<nat>, keep: string -> bool, id: nat)
    ensures id in Collect(Filter(lines, keep), read) <==>
      exists i :: 0 <= i < |lines| && read(lines[i]) == Some(id) && keep(lines[i])
  {
    if lines != [] {
      var init, last := lines[..|lines| - 1], lines[|lines| - 1];
      CollectFilterSurvivor(init, read, keep, id);
      var kept := Filter(init, keep);
      FilterStep(lines, read, keep);
      if id in Collect(Filter(lines, keep), read) {
        if id !in Collect(kept, read) {
          assert read(lines[|lines| - 1]) == Some(id) && keep(lines[|lines| - 1]);
        } else {
          var i :| 0 <= i < |init| && read(init[i]) == Some(id) && keep(init[i]);
          assert lines[i] == init[i];
        }
      }
      if exists i :: 0 <= i < |lines| && read(lines[i]) == Some(id) && keep(lines[i]) {
        var i :| 0 <= i < |lines| && read(lines[i]) == Some(id) && keep(lines[i]);
        if i < |init| {
          assert init[i] == lines[i];
        }
      }
    }
  }

  /** The test `remove_authorized_user` applies to each line: its stripped text is not the id in decimal. */
  function KeepsOtherIds(id: nat): string -> bool
  {
    line => Strip(line) != NatToString(id)
  }

  /** The lines `remove_authorized_user` writes back. */
  function KeptLines(lines: seq<string>, id: nat): seq<string>
  {
    Filter(lines, KeepsOtherIds(id))
  }

  /**
   * After `/deny`, loading the file again yields no id that was not there
   * before and every old id except possibly the denied one; the denied id
   * survives exactly when some line spells it other than in plain decimal.
   */
  lemma DenyPersists(lines: seq<string>, id: nat)
    ensures LoadedIds(KeptLines(lines, id)) <= LoadedIds(lines)
    ensures LoadedIds(lines) - {id} <= LoadedIds(KeptLines(lines, id))
    ensures id in LoadedIds(KeptLines(lines, id)) <==>
      exists i :: 0 <= i < |lines| && LoadedId(lines[i]) == Some(id) && Strip(lines[i]) != NatToString(id)
  {
    forall line | !KeepsOtherIds(id)(line)
      ensures LoadedId(line) == Some(id)
    {
      ParseNatToString(id);
    }
    CollectFilter(lines, LoadedId, KeepsOtherIds(id), id);
    CollectFilterSurvivor(lines, LoadedId, KeepsOtherIds(id), id);
  }

  /** A zero-padded line survives `/deny`: the file still authorizes user 7 after `/deny 7`. */
  lemma DenyKeepsPadded()
    ensures KeptLines(["007\n"], 7) == ["007\n"]
    ensures 7 in LoadedIds(KeptLines(["007\n"], 7))
  {
    assert NatToString(7) == "7";
    StripNumeralLine("007", '\n');
    assert "007" + ['\n'] == "007\n";
    assert ["007\n"][..0] == [];
    ParsePaddedSeven();
    assert LoadedId("007\n") == Some(7);
    CollectSnoc([], "007\n", LoadedId);
  }

  // ------------------------------------------------------------ /allow and /deny

  /** Python's `str.split()` word boundary: the index of the first whitespace character, or the length. */
  function SpaceIndex(s: string): (i: nat)
    ensures i <= |s| && forall k :: 0 <= k < i ==> !IsSpace(s[k])
    ensures i < |s| ==> IsSpace(s[i])
  {
    if |s| == 0 || IsSpace(s[0]) then 0 else SpaceIndex(s[1..]) + 1
  }

  /**
   * Python's `s.split(maxsplit=1)`: no parts for a blank string; otherwise
   * the first word and, when anything but whitespace follows it, the rest
   * with its leading whitespace removed.
   */
  function SplitOnce(s: string): (parts: seq<string>)
    ensures |parts| <= 2
  {
    var t := StripLeft(s);
    if t == [] then []
    else
      var j := SpaceIndex(t);
      var rest := StripLeft(t[j..]);
      if rest == [] then [t[..j]] else [t[..j], rest]
  }

  /** A stripped text that starts with a word and a space splits into that word and the rest. */
  lemma SplitOnceWord(t: string, word: string)
    requires |word| > 0 && forall k :: 0 <= k < |word| ==> !IsSpace(word[k])
    requires StartsWith(t, word + " ") && !IsSpace(t[|t| - 1])
    ensures SplitOnce(t) == [word, StripLeft(t[|word|..])]
  {
    assert t[0] == word[0] && t[|word|] == ' ';
    assert StripLeft(t) == t;
    assert forall k :: 0 <= k < |word| ==> t[k] == word[k];
    var j := SpaceIndex(t);
    assert j == |word|;
    assert t[..j] == word;
    var rest := t[j..];
    assert rest[|rest| - 1] == t[|t| - 1];
    StripLeftSuffix(rest);
  }

  const AllowPrefix := "/allow "
  const DenyPrefix := "/deny "

  /** What the admin's private message does to the authorization set. */
  datatype AccessCommand =
    | AllowUser(id: nat)
    | DenyUser(id: nat)
    | MissingId          // "Неверный формат", fewer than two parts
    | NotANumber         // the ValueError of `int(arg)`
    | UnknownCommand     // a first word other than "/allow" and "/deny"
    | NotAccessCommand   // neither prefix: the message is handled elsewhere

  /** The `/allow` and `/deny` branch of `handle_commands`, over the stripped message text. */
  function ParseAccessCommand(text: string): (c: AccessCommand)
    ensures c.NotAccessCommand? <==> !StartsWith(text, AllowPrefix) && !StartsWith(text, DenyPrefix)
  {
    if !StartsWith(text, AllowPrefix) && !StartsWith(text, DenyPrefix) then NotAccessCommand
    else
      var parts := SplitOnce(text);
      if |parts| < 2 then MissingId
      else
        match ParseNat(parts[1])
        case None => NotANumber
        case Some(n) =>
          if parts[0] == "/allow" then AllowUser(n)
          else if parts[0] == "/deny" then DenyUser(n)
          else UnknownCommand
  }

  /** For a message starting with the prefix of `word`, the command is read from the text after it. */
  lemma ParseAccessCommandWord(text: string, word: string)
    requires word == "/allow" || word == "/deny"
    requires StartsWith(text, word + " ") && !IsSpace(text[|text| - 1])
    ensures var arg := ParseNat(StripLeft(text[|word|..]));
      ParseAccessCommand(text)
        == if arg.None? then NotANumber else if word == "/allow" then AllowUser(arg.value) else DenyUser(arg.value)
  {
    SplitOnceWord(text, word);
    if word == "/deny" {
      assert text[1] == 'd';
      assert !StartsWith(text, AllowPrefix) by { assert AllowPrefix[1] == 'a'; }
    }
  }

  /**
   * Once the message is stripped, the "wrong format" and "unknown command"
   * answers cannot be given: a command prefix followed by non-blank text
   * always splits in two, and its first word is the command itself.
   */
  lemma AccessCommandNeverMalformed(raw: string)
    ensures var c := ParseAccessCommand(Strip(raw)); !c.MissingId? && !c.UnknownCommand?
  {
    var text := Strip(raw);
    if StartsWith(text, AllowPrefix) {
      ParseAccessCommandWord(text, "/allow");
    } else if StartsWith(text, DenyPrefix) {
      ParseAccessCommandWord(text, "/deny");
    }
  }

  /** `/allow N` with `N` in plain decimal names user `N`. */
  lemma AllowRoundTrip(n: nat)
    ensures ParseAccessCommand(AllowPrefix + NatToString(n)) == AllowUser(n)
  {
    ParseNatToString(n);
    NumeralAfterWord("/allow", AllowPrefix, NatToString(n));
    ParseAccessCommandWord(AllowPrefix + NatToString(n), "/allow");
  }

  /** `/deny N` with `N` in plain decimal names user `N`. */
  lemma DenyRoundTrip(n: nat)
    ensures ParseAccessCommand(DenyPrefix + NatToString(n)) == DenyUser(n)
  {
    ParseNatToString(n);
    NumeralAfterWord("/deny", DenyPrefix, NatToString(n));
    ParseAccessCommandWord(DenyPrefix + NatToString(n), "/deny");
  }

  /** After a command word and a space, a numeral is what `split` leaves as the argument. */
  lemma NumeralAfterWord(word: string, prefix: string, digits: string)
    requires prefix == word + " " && IsDigitString(digits)
    ensures var text := prefix + digits;
      StartsWith(text, word + " ") && !IsSpace(text[|text| - 1]) && StripLeft(text[|word|..]) == digits
  {
    var text := prefix + digits;
    assert text[|text| - 1] == digits[|digits| - 1];
    assert text[..|word| + 1] == word + " ";
    assert text[|word|..] == " " + digits;
    assert (" " + digits)[1..] == digits;
    assert StripLeft(digits) == digits by { assert IsDigit(digits[0]); }
  }

  /** `int("007")` is 7. */
  lemma ParsePaddedSeven()
    ensures ParseNat("007") == Some(7)
  {
    assert DigitsValue("007") == 7 by {
      assert "007"[..2] == "00" && "00"[..1] == "0";
    }
  }

  /** `int()` reads leading zeros, so `/deny 007` denies user 7. */
  lemma DenyPaddedId()
    ensures ParseAccessCommand("/deny 007") == DenyUser(7)
  {
    ParseAccessCommandWord("/deny 007", "/deny");
    assert "/deny 007"[|"/deny"|..] == " 007";
    assert " 007"[1..] == "007";
    assert StripLeft("007") == "007";
    ParsePaddedSeven();
  }

  /** `AUTHORIZED_USERS` and the authorized-users file, as lines, together with the admin's id. */
  class AccessControl {
    var authorized: set<int>
    var fileLines: seq<string>
    var admin: int

    /** `load_configuration`: every digit-only line of the file is loaded, then the admin is added. */
    constructor Load(lines: seq<string>, adminId: int)
      ensures authorized == LoadedIds(lines) + {adminId}
      ensures fileLines == lines && admin == adminId
    {
      var ids: set<int> := {};
      var i := 0;
      while i < |lines|
        invariant 0 <= i <= |lines|
        invariant ids == LoadedIds(lines[..i])
      {
        var line := Strip(lines[i]);
        assert lines[..i + 1] == lines[..i] + [lines[i]];
        CollectSnoc(lines[..i], lines[i], LoadedId);
        if IsDigitString(line) {
          ids := ids + {ParseNat(line).value};
        }
        i := i + 1;
      }
      assert lines[..i] == lines;
      authorized := ids + {adminId};
      fileLines := lines;
      admin := adminId;
    }

    /** The access check of the command loop and the mini-app handler: an authorized user or the admin. */
    predicate IsAllowed(user: int)
      reads this
    {
      user in authorized || user == admin
    }

    /**
     * `/allow N`: `N` joins the set and a line for it is appended to the
     * file's text; afterwards every line of the file ends in a newline.
     */
    method Allow(id: nat)
      modifies this
      ensures authorized == old(authorized) + {id} && fileLines == AppendLine(old(fileLines), IdLine(id))
      ensures WellSplit(old(fileLines)) ==> Terminated(fileLines)
      ensures admin == old(admin) && IsAllowed(id)
    {
      authorized := authorized + {id};
      fileLines := AppendLine(fileLines, IdLine(id));
    }

    /** `/deny N`: `N` leaves the set and every line spelling it in plain decimal leaves the file. */
    method Deny(id: nat)
      modifies this
      ensures authorized == old(authorized) - {id} && fileLines == KeptLines(old(fileLines), id)
      ensures WellSplit(old(fileLines)) ==> WellSplit(fileLines)
      ensures Terminated(old(fileLines)) ==> Terminated(fileLines)
      ensures admin == old(admin) && (IsAllowed(id) <==> id == admin)
    {
      var lines, kept, keep := fileLines, [], KeepsOtherIds(id);
      var i := 0;
      while i < |lines|
        invariant 0 <= i <= |lines| && unchanged(this)
        invariant kept == KeptLines(lines[..i], id)
      {
        assert lines[..i + 1] == lines[..i] + [lines[i]];
        FilterSnoc(lines[..i], lines[i], keep);
        if keep(lines[i]) {
          kept := kept + [lines[i]];
        }
        i := i + 1;
      }
      assert lines[..i] == lines;
      if WellSplit(lines) {
        FilterWellSplit(lines, keep);
      }
      if Terminated(lines) {
        FilterTerminated(lines, keep);
      }
      authorized := authorized - {id};
      fileLines := kept;
    }

    /** The `/allow`/`/deny` branch applied: the two commands change the state, the error answers do not. */
    method ApplyAccessCommand(c: AccessCommand)
      modifies this
      ensures c.AllowUser? ==> authorized == old(authorized) + {c.id} && fileLines == AppendLine(old(fileLines), IdLine(c.id))
      ensures c.DenyUser? ==> authorized == old(authorized) - {c.id} && fileLines == KeptLines(old(fileLines), c.id)
      ensures !c.AllowUser? && !c.DenyUser? ==> authorized == old(authorized) && fileLines == old(fileLines)
      ensures admin == old(admin)
    {
      match c
      case AllowUser(id) => Allow(id);
      case DenyUser(id) => Deny(id);
      case _ =>
    }
  }

  // ------------------------------------------------------------ settings access requests

  const SettingsAllowPrefix := "settings_allow_"
  const SettingsDenyPrefix := "settings_deny_"

  /** The admin's answer a callback carries: allow or deny, and the session it names. */
  datatype SettingsAnswer = SettingsAnswer(allow: bool, session: string)

  /** `handle_settings_access_callback`: which answer the callback data gives, read back with `replace`. */
  function ReadSettingsAnswer(data: string): (r: Option<SettingsAnswer>)
    ensures r.Some? <==> StartsWith(data, SettingsAllowPrefix) || StartsWith(data, SettingsDenyPrefix)
    ensures r.Some? ==> |r.value.session| < |data|
  {
    if StartsWith(data, SettingsAllowPrefix) then Some(SettingsAnswer(true, RemoveAll(data, SettingsAllowPrefix)))
    else if StartsWith(data, SettingsDenyPrefix) then Some(SettingsAnswer(false, RemoveAll(data, SettingsDenyPrefix)))
    else None
  }

  /** The callback data of the two buttons offered for a session. */
  function AnswerData(allow: bool, session: string): (data: string)
    ensures StartsWith(data, if allow then SettingsAllowPrefix else SettingsDenyPrefix)
  {
    (if allow then SettingsAllowPrefix else SettingsDenyPrefix) + session
  }

  /** A button names its own session again, as long as the session id holds no copy of the button's prefix. */
  lemma SettingsAnswerRoundTrip(allow: bool, session: string)
    requires !Occurs(if allow then SettingsAllowPrefix else SettingsDenyPrefix, session)
    ensures ReadSettingsAnswer(AnswerData(allow, session)) == Some(SettingsAnswer(allow, session))
  {
    var data := AnswerData(allow, session);
    if allow {
      StripPrefixRoundTrip(SettingsAllowPrefix, session);
    } else {
      assert data[9] == 'd' && SettingsAllowPrefix[9] == 'a';
      StripPrefixRoundTrip(SettingsDenyPrefix, session);
    }
  }

  /** A session id holding the prefix is misread: its allow button names session "1", not "settings_allow_1". */
  lemma SettingsAnswerMisread()
    ensures ReadSettingsAnswer(AnswerData(true, "settings_allow_1")) == Some(SettingsAnswer(true, "1"))
  {
    var data := AnswerData(true, "settings_allow_1");
    assert data[..15] == SettingsAllowPrefix && data[15..] == "settings_allow_1";
    assert data[15..][..15] == SettingsAllowPrefix && data[15..][15..] == "1";
    assert RemoveAll("1", SettingsAllowPrefix) == "1";
  }

  /** The outcome of an answer: the requesting user was granted or refused access, or nothing was pending. */
  datatype Verdict = Granted(user: int) | Refused(user: int) | NoRequest

  /** `settings_access_requests`: the user waiting for an answer, by session id. */
  class SettingsAccess {
    var requests: map<string, int>

    constructor ()
      ensures requests == map[]
    {
      requests := map[];
    }

    /** `handle_settings_access_request`: the session is recorded, replacing any earlier request for it. */
    method Request(session: string, user: int)
      modifies this
      ensures requests == old(requests)[session := user]
    {
      requests := requests[session := user];
    }

    /**
     * `handle_settings_access_callback`: an answer for a pending session
     * notifies its user and deletes the request; any other callback changes
     * nothing.
     */
    method Resolve(data: string) returns (v: Verdict)
      modifies this
      ensures var a := ReadSettingsAnswer(data);
        if a.Some? && a.value.session in old(requests) then
          v == (if a.value.allow then Granted(old(requests)[a.value.session]) else Refused(old(requests)[a.value.session]))
          && requests == old(requests) - {a.value.session}
        else
          v == NoRequest && requests == old(requests)
    {
      var a := ReadSettingsAnswer(data);
      if a.None? || a.value.session !in requests {
        return NoRequest;
      }
      var user := requests[a.value.session];
      v := if a.value.allow then Granted(user) else Refused(user);
      requests := requests - {a.value.session};
    }
  }

  /** A request answered through its own button reaches the user who asked, and is then gone. */
  method RequestThenAnswer(s: SettingsAccess, session: string, user: int, allow: bool) returns (v: Verdict)
    requires !Occurs(if allow then SettingsAllowPrefix else SettingsDenyPrefix, session)
    modifies s
    ensures v == (if allow then Granted(user) else Refused(user))
    ensures s.requests == old(s.requests) - {session}
  {
    s.Request(session, user);
    SettingsAnswerRoundTrip(allow, session);
    v := s.Resolve(AnswerData(allow, session));
  }
}
