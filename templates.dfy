/**
 * The three file templates of `create` (challenge_generator.py, lines
 * 24-50) and what `str.format` makes of them (lines 86-95).
 *
 * Each template is written as the source writes it, line by line: its
 * literal text, cut into short pieces, and its replacement fields. Each
 * rendering function gives the output as the same lines with the values put
 * in; its contract ties that output to `Format` applied to the template and
 * the keyword arguments of the source's call.
 */
module Templates {
  import opened Common
  import opened Strings
  import opened Payload
  import opened StrFormat

  // The field names of the templates.
  const NameKey: Key := "name"
  const DirectoryKey: Key := "directory"
  const DescriptionKey: Key := "description"
  const DataKey: Key := "data"

  const Quote: PlainText := "\""
  const Newline: PlainText := "\n"

  // `template_metadata` (lines 24-34).
  const XmlDeclarationA: PlainText := "<?xml version=\"1.0\""
  const XmlDeclarationB: PlainText := " encoding=\"UTF-8\"?>\n"
  const MetadataOpen: PlainText := "<metadata>\n"
  const NameOpen: PlainText := "    <name>"
  const NameClose: PlainText := "</name>\n"
  const DirectoryOpen: PlainText := "    <directory>"
  const DirectoryClose: PlainText := "</directory>\n"
  const IdLine: PlainText := "    <id>848225254</id>\n"
  const DescriptionOpen: PlainText := "    <description>"
  const DescriptionClose: PlainText := "</description>\n"
  const VersionLine: PlainText := "    <version>1.1</version>\n"
  const VisibilityOpen: PlainText := "    <visibility>"
  const VisibilityRest: PlainText := "Public</visibility>\n"
  const TagLine: PlainText := "    <tag id=\"Challenges\"/>\n"
  const MetadataClose: PlainText := "</metadata>\n"

  const MetadataHead: PlainText := XmlDeclarationA + XmlDeclarationB + MetadataOpen
  const MetadataFoot: PlainText := VersionLine + VisibilityOpen + VisibilityRest + TagLine + MetadataClose

  const MetadataTemplate: string :=
    MetadataHead +
    (NameOpen + Field(NameKey) + NameClose) +
    (DirectoryOpen + Field(DirectoryKey) + DirectoryClose) +
    IdLine +
    (DescriptionOpen + Field(DescriptionKey) + DescriptionClose) +
    MetadataFoot

  // `template_main` (lines 36-45).
  const ChallengeNameOpen: PlainText := "local challengename = \""
  const ModDataLead: PlainText := "local moddata = \""
  const MarkerOpen: PlainText := Open
  const MarkerClose: PlainText := Close
  const RegisterModA: PlainText := "local mod = "
  const RegisterModB: PlainText := "RegisterMod(challengename, 1)\n"
  const ChallengeIdA: PlainText := "local challengeid = "
  const ChallengeIdB: PlainText := "Isaac.GetChallengeIdByName("
  const ChallengeIdC: PlainText := "challengename)\n"
  const IfLine: PlainText := "if not DRChallengesData then\n"
  const TableInit: PlainText := "  DRChallengesData = "
  const EndLine: PlainText := "end\n"
  const StoreA: PlainText := "DRChallengesData[challengeid]"
  const StoreB: PlainText := " = moddata\n"

  /** The text of `template_main` from line 38 up to the `{{}}` of line 42. */
  const MainTailHead: PlainText :=
    RegisterModA + RegisterModB +
    ChallengeIdA + ChallengeIdB + ChallengeIdC +
    Newline +
    IfLine +
    TableInit

  /** The text of `template_main` after the `{{}}` of line 42. */
  const MainTailFoot: PlainText := Newline + EndLine + StoreA + StoreB

  const MainTemplate: string :=
    (ChallengeNameOpen + Field(NameKey) + Quote + Newline) +
    (ModDataLead + (MarkerOpen + Field(DataKey) + MarkerClose) + (Quote + Newline)) +
    (MainTailHead + "{{}}" + MainTailFoot)

  // `template_challenges` (lines 47-50).
  const ChallengesOpen: PlainText := "<challenges version=\"1\">\n"
  const ChallengeOpen: PlainText := "<challenge name=\""
  const ChallengeAttrsA: PlainText := "\" endstage=\"12\""
  const ChallengeAttrsB: PlainText := " altpath=\"false\" />\n"
  const ChallengesClose: PlainText := "</challenges>\n"

  const ChallengeAttrs: PlainText := ChallengeAttrsA + ChallengeAttrsB

  const ChallengesTemplate: string :=
    ChallengesOpen +
    (ChallengeOpen + Field(NameKey) + ChallengeAttrs) +
    ChallengesClose

  /** The keyword arguments of the call at line 87. */
  function MetadataArgs(name: string, directory: string, description: string): (kw: map<string, string>)
    ensures kw.Keys == {NameKey, DirectoryKey, DescriptionKey}
    ensures kw[NameKey] == name && kw[DirectoryKey] == directory && kw[DescriptionKey] == description
  {
    map[NameKey := name, DirectoryKey := directory, DescriptionKey := description]
  }

  /** The keyword arguments of the call at line 91. */
  function MainArgs(name: string, data: string): (kw: map<string, string>)
    ensures kw.Keys == {NameKey, DataKey}
    ensures kw[NameKey] == name && kw[DataKey] == data
  {
    map[NameKey := name, DataKey := data]
  }

  /** The keyword arguments of the call at line 95. */
  function ChallengesArgs(name: string): (kw: map<string, string>)
    ensures kw.Keys == {NameKey}
    ensures kw[NameKey] == name
  {
    map[NameKey := name]
  }

  /** Formatting text and fields laid out line by line as `template_metadata` is. */
  lemma FormatMetadataShape(head: PlainText, nameOpen: PlainText, nameClose: PlainText,
      dirOpen: PlainText, dirClose: PlainText, id: PlainText, descOpen: PlainText, descClose: PlainText,
      foot: PlainText, name: string, directory: string, description: string)
    ensures Format(head + (nameOpen + Field(NameKey) + nameClose) + (dirOpen + Field(DirectoryKey) + dirClose)
      + id + (descOpen + Field(DescriptionKey) + descClose) + foot, MetadataArgs(name, directory, description))
      == Success(head + (nameOpen + name + nameClose) + (dirOpen + directory + dirClose)
      + id + (descOpen + description + descClose) + foot)
  {
    var kw := MetadataArgs(name, directory, description);
    var n, d, e := nameOpen + Field(NameKey) + nameClose, dirOpen + Field(DirectoryKey) + dirClose,
      descOpen + Field(DescriptionKey) + descClose;
    FormatLiteral(head, kw);
    FormatTextFieldText(nameOpen, NameKey, nameClose, kw);
    FormatTextFieldText(dirOpen, DirectoryKey, dirClose, kw);
    FormatLiteral(id, kw);
    FormatTextFieldText(descOpen, DescriptionKey, descClose, kw);
    FormatLiteral(foot, kw);
    FormatAppend(head, n, kw);
    FormatAppend(head + n, d, kw);
    FormatAppend(head + n + d, id, kw);
    FormatAppend(head + n + d + id, e, kw);
    FormatAppend(head + n + d + id + e, foot, kw);
  }

  /** The text of `metadata.xml` (lines 86-87). */
  function MetadataXml(name: string, directory: string, description: string): (r: string)
    ensures Format(MetadataTemplate, MetadataArgs(name, directory, description)) == Success(r)
  {
    FormatMetadataShape(MetadataHead, NameOpen, NameClose, DirectoryOpen, DirectoryClose, IdLine,
      DescriptionOpen, DescriptionClose, MetadataFoot, name, directory, description);
    MetadataHead +
    (NameOpen + name + NameClose) +
    (DirectoryOpen + directory + DirectoryClose) +
    IdLine +
    (DescriptionOpen + description + DescriptionClose) +
    MetadataFoot
  }

  /** Formatting text, fields and `{{}}` laid out line by line as `template_main` is. */
  lemma FormatMainShape(nameOpen: PlainText, lead: PlainText, open: PlainText, close: PlainText,
      quote: PlainText, newline: PlainText, tailHead: PlainText, tailFoot: PlainText, name: string, data: string)
    ensures Format((nameOpen + Field(NameKey) + quote + newline) +
      (lead + (open + Field(DataKey) + close) + (quote + newline)) +
      (tailHead + "{{}}" + tailFoot), MainArgs(name, data))
      == Success((nameOpen + name + quote + newline) +
      (lead + (open + data + close) + (quote + newline)) +
      (tailHead + "{}" + tailFoot))
  {
    var kw := MainArgs(name, data);
    var first := nameOpen + Field(NameKey) + quote + newline;
    var marked := open + Field(DataKey) + close;
    var second := lead + marked + (quote + newline);
    var tail := tailHead + "{{}}" + tailFoot;
    FormatTextFieldText(nameOpen, NameKey, quote, kw);
    FormatThenText(nameOpen + Field(NameKey) + quote, newline, kw);
    FormatTextFieldText(open, DataKey, close, kw);
    FormatLiteral(lead, kw);
    FormatLiteral(quote + newline, kw);
    FormatAppend(lead, marked, kw);
    FormatAppend(lead + marked, quote + newline, kw);
    FormatTextPairText(tailHead, tailFoot, kw);
    FormatAppend(first, second, kw);
    FormatAppend(first + second, tail, kw);
  }

  /** Line 37 of `template_main` with the name put in: `local challengename = "<name>"`. */
  function NameLine(name: string): string
  {
    ChallengeNameOpen + name + Quote + Newline
  }

  /** Line 38 of `template_main` with the payload put in: `local moddata = "[data]<data>[/data]"`. */
  function DataLine(data: string): string
  {
    ModDataLead + (MarkerOpen + data + MarkerClose) + (Quote + Newline)
  }

  /** Lines 39-45 of `template_main`, with `{{}}` read as `{}`. */
  const MainTail: string := MainTailHead + "{}" + MainTailFoot

  /** The text of `main.lua` (lines 90-91). */
  function MainLua(name: string, data: string): (r: string)
    ensures Format(MainTemplate, MainArgs(name, data)) == Success(r)
  {
    FormatMainShape(ChallengeNameOpen, ModDataLead, MarkerOpen, MarkerClose, Quote, Newline,
      MainTailHead, MainTailFoot, name, data);
    NameLine(name) + DataLine(data) + MainTail
  }

  /** Formatting text and a field laid out line by line as `template_challenges` is. */
  lemma FormatChallengesShape(head: PlainText, open: PlainText, attrs: PlainText, foot: PlainText, name: string)
    ensures Format(head + (open + Field(NameKey) + attrs) + foot, ChallengesArgs(name))
      == Success(head + (open + name + attrs) + foot)
  {
    var kw := ChallengesArgs(name);
    FormatLiteral(head, kw);
    FormatTextFieldText(open, NameKey, attrs, kw);
    FormatLiteral(foot, kw);
    FormatAppend(head, open + Field(NameKey) + attrs, kw);
    FormatAppend(head + (open + Field(NameKey) + attrs), foot, kw);
  }

  /** The text of `challenges.xml` (lines 94-95). */
  function ChallengesXml(name: string): (r: string)
    ensures Format(ChallengesTemplate, ChallengesArgs(name)) == Success(r)
  {
    FormatChallengesShape(ChallengesOpen, ChallengeOpen, ChallengeAttrs, ChallengesClose, name);
    ChallengesOpen +
    (ChallengeOpen + name + ChallengeAttrs) +
    ChallengesClose
  }

  /** `metadata.xml` always carries the fixed id and version, and the three given values in their elements. */
  lemma MetadataMentions(name: string, directory: string, description: string)
    ensures Contains(MetadataXml(name, directory, description), IdLine)
    ensures Contains(MetadataXml(name, directory, description), VersionLine)
    ensures Contains(MetadataXml(name, directory, description), NameOpen + name + NameClose)
    ensures Contains(MetadataXml(name, directory, description), DirectoryOpen + directory + DirectoryClose)
    ensures Contains(MetadataXml(name, directory, description), DescriptionOpen + description + DescriptionClose)
  {
    var n, d, e := NameOpen + name + NameClose, DirectoryOpen + directory + DirectoryClose,
      DescriptionOpen + description + DescriptionClose;
    var h := MetadataHead;
    ContainsSelf(n);
    ContainsRight(h, n, n);
    ContainsLeft(h + n, d, n);
    ContainsSelf(d);
    ContainsRight(h + n, d, d);
    ContainsSelf(IdLine);
    ContainsRight(h + n + d, IdLine, IdLine);
    ContainsLeft(h + n + d, IdLine, n);
    ContainsLeft(h + n + d, IdLine, d);
    var upToId := h + n + d + IdLine;
    ContainsSelf(e);
    ContainsRight(upToId, e, e);
    ContainsLeft(upToId, e, n);
    ContainsLeft(upToId, e, d);
    ContainsLeft(upToId, e, IdLine);
    var body := upToId + e;
    ContainsLeft(body, MetadataFoot, n);
    ContainsLeft(body, MetadataFoot, d);
    ContainsLeft(body, MetadataFoot, e);
    ContainsLeft(body, MetadataFoot, IdLine);
    ContainsSelf(VersionLine);
    ContainsLeft(VersionLine, VisibilityOpen, VersionLine);
    ContainsLeft(VersionLine + VisibilityOpen, VisibilityRest, VersionLine);
    ContainsLeft(VersionLine + VisibilityOpen + VisibilityRest, TagLine, VersionLine);
    ContainsLeft(VersionLine + VisibilityOpen + VisibilityRest + TagLine, MetadataClose, VersionLine);
    ContainsRight(body, MetadataFoot, VersionLine);
  }

  /**
   * `main.lua` names the challenge and carries the payload between the
   * markers, each on its own line, and `{{}}` of the template became
   * `{}`.
   */
  lemma MainMentions(name: string, data: string)
    ensures Contains(MainLua(name, data), ChallengeNameOpen + name + Quote + Newline)
    ensures Contains(MainLua(name, data), ModDataLead + (Open + data + Close) + (Quote + Newline))
    ensures Contains(MainLua(name, data), TableInit + "{}")
  {
    var a, d := NameLine(name), DataLine(data);
    ContainsSelf(a);
    ContainsLeft(a, d, a);
    ContainsLeft(a + d, MainTail, a);
    ContainsSelf(d);
    ContainsRight(a, d, d);
    ContainsLeft(a + d, MainTail, d);
    var pre := RegisterModA + RegisterModB + ChallengeIdA + ChallengeIdB + ChallengeIdC + Newline + IfLine;
    ContainsJoint(pre, TableInit, "{}", MainTailFoot);
    ContainsRight(a + d, MainTail, TableInit + "{}");
  }

  /** `challenges.xml` names the challenge and always ends at stage 12 off the alternative path. */
  lemma ChallengesMentions(name: string)
    ensures Contains(ChallengesXml(name), ChallengeOpen + name + ChallengeAttrs)
    ensures Contains(ChallengesXml(name), ChallengeAttrsA + ChallengeAttrsB)
  {
    var c := ChallengeOpen + name + ChallengeAttrs;
    ContainsSelf(c);
    ContainsRight(ChallengesOpen, c, c);
    ContainsLeft(ChallengesOpen + c, ChallengesClose, c);
    ContainsSelf(ChallengeAttrs);
    ContainsRight(ChallengeOpen + name, ChallengeAttrs, ChallengeAttrs);
    ContainsRight(ChallengesOpen, c, ChallengeAttrs);
    ContainsLeft(ChallengesOpen + c, ChallengesClose, ChallengeAttrs);
  }

  // Lines 38-45 of `template_main` hold no `/`, piece by piece. Each constant
  // has a lemma of its own: checking the characters of several literals in one
  // proof costs the solver far more than checking them one at a time.
  lemma NoSlashInRegisterModA()
    ensures '/' !in RegisterModA
  {
  }

  lemma NoSlashInRegisterModB()
    ensures '/' !in RegisterModB
  {
  }

  lemma NoSlashInChallengeIdA()
    ensures '/' !in ChallengeIdA
  {
  }

  lemma NoSlashInChallengeIdB()
    ensures '/' !in ChallengeIdB
  {
  }

  lemma NoSlashInChallengeIdC()
    ensures '/' !in ChallengeIdC
  {
  }

  lemma NoSlashInNewline()
    ensures '/' !in Newline
  {
  }

  lemma NoSlashInIfLine()
    ensures '/' !in IfLine
  {
  }

  lemma NoSlashInTableInit()
    ensures '/' !in TableInit
  {
  }

  lemma NoSlashInEndLine()
    ensures '/' !in EndLine
  {
  }

  lemma NoSlashInStoreA()
    ensures '/' !in StoreA
  {
  }

  lemma NoSlashInStoreB()
    ensures '/' !in StoreB
  {
  }

  /** Lines 38-45 of `template_main` hold no `/`, so no `[/data]` either. */
  lemma NoSlashInMainTail()
    ensures '/' !in MainTail
  {
    NoSlashInRegisterModA();
    NoSlashInRegisterModB();
    NoSlashInChallengeIdA();
    NoSlashInChallengeIdB();
    NoSlashInChallengeIdC();
    NoSlashInNewline();
    NoSlashInIfLine();
    NoSlashInTableInit();
    NoSlashInEndLine();
    NoSlashInStoreA();
    NoSlashInStoreB();
  }

  /** No line after the payload line of `main.lua` has both markers. */
  lemma MainTailHasNoMatch()
    ensures forall k :: 0 <= k < |Lines(MainTail)| ==> !Matches(Lines(MainTail)[k])
  {
    NoSlashInMainTail();
    MarkersLeadUnique();
    AbsentChar(MainTail, Close, 1);
    LinesAvoid(MainTail, Close);
  }

  /** A payload without a line break makes `DataLine` a single line that yields it back. */
  lemma DataLineYields(data: string)
    requires !Contains(data, Open) && !Contains(data, Close) && '\n' !in data
    ensures DataLine(data)[|DataLine(data)| - 1] == '\n' && Lines(DataLine(data)) == [DataLine(data)]
    ensures Matches(DataLine(data)) && Extract(DataLine(data)) == data
  {
    var line := DataLine(data);
    assert line[..|line| - 1] == ModDataLead + (Open + data + Close) + Quote;
    assert '\n' !in ModDataLead && '\n' !in Open && '\n' !in Close && '\n' !in Quote;
    SingleLine(line);
    assert '[' !in ModDataLead;
    AbsentChar(ModDataLead, Open, 0);
    ExtractExact(ModDataLead, data, Quote + Newline);
  }

  /** A line of text without a line break of its own, then `'\n'`, is one line. */
  lemma OneLine(body: string)
    requires '\n' !in body
    ensures Lines(body + "\n") == [body + "\n"]
  {
    var line := body + "\n";
    assert line[..|line| - 1] == body;
    SingleLine(line);
  }

  /** Line 36 of `template_main`, filled with a name without a line break, is one line. */
  lemma NameLineIsLine(name: string)
    requires '\n' !in name
    ensures Lines(NameLine(name)) == [NameLine(name)]
  {
    assert '\n' !in ChallengeNameOpen && '\n' !in Quote;
    OneLine(ChallengeNameOpen + name + Quote);
  }

  /** Line 37 of `template_main`, filled with a payload without a line break, is one line. */
  lemma DataLineIsLine(data: string)
    requires '\n' !in data
    ensures Lines(DataLine(data)) == [DataLine(data)]
  {
    assert '\n' !in ModDataLead && '\n' !in Open && '\n' !in Close && '\n' !in Quote;
    var body := ModDataLead + (Open + data + Close) + Quote;
    OneLine(body);
    assert DataLine(data) == body + "\n";
  }

  /**
   * For a name and a payload without line breaks, the first two lines of
   * `main.lua` are the name line and the payload line, followed by the lines
   * of the rest of the template.
   */
  lemma MainLuaLines(name: string, data: string)
    requires '\n' !in name && '\n' !in data
    ensures Lines(MainLua(name, data)) == [NameLine(name), DataLine(data)] + Lines(MainTail)
  {
    NameLineIsLine(name);
    DataLineIsLine(data);
    LinesOfTwoLines(NameLine(name), DataLine(data), MainTail);
  }

  /**
   * Reading `main.lua` the way lines 59-69 read the save file gives back the
   * payload it was rendered with, whatever the challenge name: the payload
   * line is the last line with both markers.
   */
  lemma MainLuaCarriesPayload(name: string, data: string)
    requires data != "" && !Contains(data, Open) && !Contains(data, Close) && '\n' !in data
    ensures PayloadOf(Lines(MainLua(name, data))) == Success(data)
  {
    DataLineYields(data);
    MainTailHasNoMatch();
    PayloadOfLineBetween(NameLine(name), DataLine(data), MainTail);
  }
}
