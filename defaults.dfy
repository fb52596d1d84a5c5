/**
 * The two argument defaults of `create` (challenge_generator.py, lines
 * 71-72). Python's `x or y` yields `y` when `x` is falsy, and both `None`
 * and the empty string are falsy.
 */
module Defaults {
  import opened Common
  import opened Strings

  const NoDescription: string := "No description given."

  /** `description or 'No description given.'` (line 71). */
  function DescriptionOrDefault(description: Option<string>): (r: string)
    ensures description.Some? && description.value != "" ==> r == description.value
    ensures description.None? || description.value == "" ==> r == NoDescription
    ensures r != ""
  {
    if description.Some? && description.value != "" then description.value else NoDescription
  }

  /**
   * `directory_name or '_'.join(directory_name.split(' '))` (line 72), as
   * written: the fallback splits `directory_name` itself, so `None` fails
   * with an `AttributeError` and `""` comes back as `""`.
   */
  function DirectoryNameAsWritten(directoryName: Option<string>): (r: Result<string, Error>)
    ensures directoryName.None? <==> r == Failure(NoneHasNoSplit)
    ensures directoryName.Some? && directoryName.value != "" ==> r == Success(directoryName.value)
  {
    match directoryName
    case None => Failure(NoneHasNoSplit)
    case Some(d) => if d != "" then Success(d) else Success(Join(Split(d, " "), "_"))
  }

  /** The fallback of line 72 turns the empty name into the empty name. */
  lemma EmptyDirectoryNameStaysEmpty()
    ensures DirectoryNameAsWritten(Some("")) == Success("")
  {
    JoinSplitReplaces("", ' ', '_');
  }

  /**
   * What the doc-comment at line 18 describes: without a directory name, the
   * challenge name is used with its spaces turned into `_` (spelled as line
   * 72 would spell it for `challenge_name`).
   */
  function IntendedDirectoryName(challengeName: string, directoryName: Option<string>): (r: string)
    ensures directoryName.Some? && directoryName.value != "" ==> r == directoryName.value
    ensures directoryName.None? || directoryName.value == "" ==> r == ReplaceChar(challengeName, ' ', '_')
  {
    JoinSplitReplaces(challengeName, ' ', '_');
    if directoryName.Some? && directoryName.value != "" then directoryName.value
    else Join(Split(challengeName, " "), "_")
  }

  /** The intended directory name never contains a space unless the given one does. */
  lemma IntendedDirectoryNameHasNoSpace(challengeName: string, directoryName: Option<string>)
    requires directoryName.None? || directoryName.value == ""
    ensures forall i :: 0 <= i < |IntendedDirectoryName(challengeName, directoryName)| ==>
      IntendedDirectoryName(challengeName, directoryName)[i] != ' '
    ensures |IntendedDirectoryName(challengeName, directoryName)| == |challengeName|
  {
  }

  /**
   * The code as written agrees with the intent exactly when a non-empty
   * directory name is given, or the empty one together with an empty
   * challenge name.
   */
  lemma DirectoryDefaultDisagreement(challengeName: string, directoryName: Option<string>)
    ensures DirectoryNameAsWritten(directoryName) == Success(IntendedDirectoryName(challengeName, directoryName))
      <==> directoryName.Some? && (directoryName.value != "" || challengeName == "")
  {
    if directoryName == Some("") {
      EmptyDirectoryNameStaysEmpty();
      assert |IntendedDirectoryName(challengeName, directoryName)| == |challengeName|;
    }
  }

  /**
   * The doc-comment's example, for any two words: "My Challenge" becomes
   * "My_Challenge".
   */
  lemma TwoWordDirectoryName(first: string, second: string)
    requires forall i :: 0 <= i < |first| ==> first[i] != ' '
    requires forall i :: 0 <= i < |second| ==> second[i] != ' '
    ensures IntendedDirectoryName(first + " " + second, None) == first + "_" + second
  {
    var s := first + " " + second;
    assert s[|first|] == ' ';
    forall j | 0 <= j < |first| ensures s[j] != ' ' {
      assert s[j] == first[j];
    }
    ReplaceAtFirst(s, ' ', '_', |first|);
    assert s[..|first|] == first && s[|first| + 1..] == second;
    ReplaceAbsent(first, ' ', '_');
    ReplaceAbsent(second, ' ', '_');
  }
}
