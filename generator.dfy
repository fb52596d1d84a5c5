/**
 * `create` (challenge_generator.py, lines 8-98) without its file-system
 * effects: the lines of the save file come in as a sequence, and the
 * directory name and the three file texts that `create` would write come
 * out as a value.
 */
module Generator {
  import opened Common
  import opened Strings
  import opened Payload
  import opened Defaults
  import opened StrFormat
  import opened Templates

  /** What `create` writes: the challenge directory's name and its three files. */
  datatype Challenge = Challenge(
    directory: string,      // the last component of `challenge_path` (line 75)
    metadataXml: string,    // `metadata.xml` (lines 85-88)
    mainLua: string,        // `main.lua` (lines 90-92)
    challengesXml: string)  // `content/challenges.xml` (lines 94-96)

  /**
   * The steps of `create` in the source's order: the payload scan and its
   * falsy check (lines 59-69), the two defaults (lines 71-72), then the
   * three renderings (lines 86-95).
   */
  method Create(challengeName: string, description: Option<string>, directoryName: Option<string>,
      saveLines: seq<string>) returns (r: Result<Challenge, Error>)
    ensures PayloadOf(saveLines).Failure? ==> r == Failure(CouldNotGetData)
    ensures PayloadOf(saveLines).Success? && directoryName.None? ==> r == Failure(NoneHasNoSplit)
    ensures r.Success? <==> PayloadOf(saveLines).Success? && directoryName.Some?
    ensures r.Success? ==> r.value.directory == directoryName.value
    ensures r.Success? ==>
      var data, description' := PayloadOf(saveLines).value, DescriptionOrDefault(description);
      Format(MetadataTemplate, MetadataArgs(challengeName, r.value.directory, description'))
        == Success(r.value.metadataXml) &&
      Format(MainTemplate, MainArgs(challengeName, data)) == Success(r.value.mainLua) &&
      Format(ChallengesTemplate, ChallengesArgs(challengeName)) == Success(r.value.challengesXml)
    ensures r.Success? && '\n' !in PayloadOf(saveLines).value ==>
      PayloadOf(Lines(r.value.mainLua)) == PayloadOf(saveLines)
  {
    var data := ReadPayload(saveLines);
    if data.Failure? {
      return Failure(data.error);
    }
    var description' := DescriptionOrDefault(description);
    var directory := DirectoryNameAsWritten(directoryName);
    if directory.Failure? {
      return Failure(directory.error);
    }
    var mainLua := MainLua(challengeName, data.value);
    if '\n' !in data.value {
      MainLuaCarriesPayload(challengeName, data.value);
    }
    r := Success(Challenge(
      directory.value,
      MetadataXml(challengeName, directory.value, description'),
      mainLua,
      ChallengesXml(challengeName)));
  }
}
