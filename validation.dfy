/**
 * The checks `onSubmit` makes before anything is dispatched. Each failing
 * check stops the submission with its own message; an empty roster stops it
 * silently.
 */
module Validation {
  import opened Wrappers
  import opened Text
  import opened Dispatch

  datatype Rejection = TooFewToMerge | RangeMissing | RangeInvalid | CommandMissing | CommandIncomplete {
    /** The alert shown for the rejection. */
    function Message(): string {
      match this
      case TooFewToMerge => "Please select at least 2 PDF files to merge."
      case RangeMissing => "Please specify page range for splitting."
      case RangeInvalid => "Please enter valid page numbers. End page must be greater than or equal to start page."
      case CommandMissing => "Please enter a custom command or disable custom command mode."
      case CommandIncomplete => "Custom command must include -sDEVICE= and -sOutputFile= parameters."
    }
  }

  datatype Verdict = NothingToDo | Rejected(reason: Rejection) | Accepted

  const DeviceToken := "-sDEVICE="
  const OutputFileToken := "-sOutputFile="

  /** Both page fields are non-empty, which is all a string's truthiness tests: "0" passes. */
  predicate RangePresent(r: SplitRange) {
    r.startPage != "" && r.endPage != ""
  }

  /** Both fields read as integers by `parseInt`, the start is at least 1 and the end not before it. */
  predicate RangeInOrder(r: SplitRange) {
    match (ParseInt(r.startPage), ParseInt(r.endPage))
    case (Some(a), Some(b)) => 1 <= a && a <= b
    case _ => false
  }

  /** The custom command, trimmed, names both an output device and an output file. */
  predicate CommandComplete(cmd: string) {
    var t := Trim(cmd);
    Contains(t, DeviceToken) && Contains(t, OutputFileToken)
  }

  /** `onSubmit`'s checks, in the order it makes them. */
  function Validate(tab: Operation, fileCount: nat, range: SplitRange, useCustomCommand: bool, customCommand: string): Verdict {
    if fileCount == 0 then NothingToDo
    else if tab == Merge && fileCount < 2 then Rejected(TooFewToMerge)
    else if tab == Split && !RangePresent(range) then Rejected(RangeMissing)
    else if tab == Split && !RangeInOrder(range) then Rejected(RangeInvalid)
    else if useCustomCommand && Trim(customCommand) == "" then Rejected(CommandMissing)
    else if useCustomCommand && !CommandComplete(customCommand) then Rejected(CommandIncomplete)
    else Accepted
  }

  lemma TokensHaveNoSpace()
    ensures DeviceToken != [] && NoSpace(DeviceToken)
    ensures OutputFileToken != [] && NoSpace(OutputFileToken)
  {
    forall i | 0 <= i < |DeviceToken| ensures !IsJsSpace(DeviceToken[i]) {
      assert DeviceToken[i] in DeviceToken;
    }
    forall i | 0 <= i < |OutputFileToken| ensures !IsJsSpace(OutputFileToken[i]) {
      assert OutputFileToken[i] in OutputFileToken;
    }
  }

  /** The check on the command is a plain containment test on the untrimmed text as well. */
  lemma CommandCompleteIff(cmd: string)
    ensures CommandComplete(cmd) <==> Contains(cmd, DeviceToken) && Contains(cmd, OutputFileToken)
  {
    TokensHaveNoSpace();
    TrimKeepsToken(cmd, DeviceToken);
    TrimKeepsToken(cmd, OutputFileToken);
  }

  /** A complete command is never blank, so the blank check cannot stop it. */
  lemma CompleteCommandNotBlank(cmd: string)
    requires CommandComplete(cmd)
    ensures Trim(cmd) != ""
  {
    var i :| 0 <= i <= |Trim(cmd)| - |DeviceToken| && OccursAt(Trim(cmd), DeviceToken, i);
  }

  /** A range that reads as numbers has two non-empty fields. */
  lemma InOrderIsPresent(r: SplitRange)
    requires RangeInOrder(r)
    ensures RangePresent(r)
  {
    assert ParseInt("") == None;
  }

  /**
   * A submission is dispatched exactly when the roster is non-empty, a merge
   * has at least two files, a split's range reads as 1 <= start <= end, and
   * a custom command, when used, contains both "-sDEVICE=" and
   * "-sOutputFile=" anywhere (any text that does passes).
   */
  lemma AcceptedIff(tab: Operation, fileCount: nat, range: SplitRange, useCustomCommand: bool, customCommand: string)
    ensures Validate(tab, fileCount, range, useCustomCommand, customCommand) == Accepted <==>
      fileCount >= 1 &&
      (tab == Merge ==> fileCount >= 2) &&
      (tab == Split ==> RangeInOrder(range)) &&
      (useCustomCommand ==> Contains(customCommand, DeviceToken) && Contains(customCommand, OutputFileToken))
  {
    assert CommandComplete(customCommand) <==> Contains(customCommand, DeviceToken) && Contains(customCommand, OutputFileToken) by {
      CommandCompleteIff(customCommand);
    }
    assert RangeInOrder(range) ==> RangePresent(range) by {
      if RangeInOrder(range) {
        InOrderIsPresent(range);
      }
    }
    assert CommandComplete(customCommand) ==> Trim(customCommand) != "" by {
      if CommandComplete(customCommand) {
        CompleteCommandNotBlank(customCommand);
      }
    }
  }

  /** Nothing is dispatched without a staged file, and no message is shown. */
  lemma EmptyRosterDoesNothing(tab: Operation, range: SplitRange, useCustomCommand: bool, customCommand: string)
    ensures Validate(tab, 0, range, useCustomCommand, customCommand) == NothingToDo
  {
  }

  /** A merge of a single file is refused before any other check. */
  lemma MergeOfOneRefused(range: SplitRange, useCustomCommand: bool, customCommand: string)
    ensures Validate(Merge, 1, range, useCustomCommand, customCommand) == Rejected(TooFewToMerge)
  {
  }

  /** A range typed in decimal whose end comes before its start ("5" to "3", say) is refused as invalid. */
  lemma DescendingRangeRefused(a: nat, b: nat, useCustomCommand: bool, customCommand: string)
    requires b < a
    ensures Validate(Split, 1, SplitRange(NatToString(a), NatToString(b)), useCustomCommand, customCommand) == Rejected(RangeInvalid)
  {
    ParseIntRoundTrip(a);
    ParseIntRoundTrip(b);
  }

  /** A start page of "0" is present as text, so it gets past the first range check and fails the second. */
  lemma StartPageZeroRefused(useCustomCommand: bool, customCommand: string)
    ensures Validate(Split, 1, SplitRange("0", "4"), useCustomCommand, customCommand) == Rejected(RangeInvalid)
  {
    assert ParseInt("0") == Some(0) by {
      ParseIntRoundTrip(0);
      assert NatToString(0) == "0";
    }
  }

  /** Any range written as 1 <= a <= b in decimal is accepted. */
  lemma DecimalRangeAccepted(a: nat, b: nat)
    requires 1 <= a <= b
    ensures RangeInOrder(SplitRange(NatToString(a), NatToString(b)))
  {
    ParseIntRoundTrip(a);
    ParseIntRoundTrip(b);
  }

  /**
   * A command naming a device but no output file is refused with its own
   * message, whatever the tab and roster, once the earlier checks pass: the
   * single file of a compression as much as a merge's many.
   */
  lemma CommandWithoutOutputFileRefused(tab: Operation, n: nat, range: SplitRange, customCommand: string)
    requires n >= 1 && (tab == Merge ==> n >= 2)
    requires tab != Split || RangeInOrder(range)
    requires Contains(customCommand, DeviceToken) && !Contains(customCommand, OutputFileToken)
    ensures Validate(tab, n, range, true, customCommand) == Rejected(CommandIncomplete)
  {
    assert !CommandComplete(customCommand) by {
      CommandCompleteIff(customCommand);
    }
    assert Trim(customCommand) != "" by {
      TokensHaveNoSpace();
      TrimKeepsToken(customCommand, DeviceToken);
      var i :| 0 <= i <= |Trim(customCommand)| - |DeviceToken| && OccursAt(Trim(customCommand), DeviceToken, i);
    }
    if tab == Split {
      InOrderIsPresent(range);
    }
  }
}
