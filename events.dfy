/**
 * The inbound chat events the bot reacts to, and the embed titles that mark
 * a task as failed (internal/discordmd/service.go).
 */
module Events {
  import opened Wrappers

  /** An embed of a message; `Footer` is None for a nil footer pointer. */
  datatype Embed = Embed(Title: string, Description: string, Footer: Option<string>)

  /** A posted message; each attachment is given by its URL. */
  datatype MessageCreate = MessageCreate(
    ID: string,
    Content: string,
    Embeds: seq<Embed>,
    Attachments: seq<string>,
    ReferencedMessageId: Option<string>)

  datatype Interaction = Interaction(ID: string, Name: string)

  /** An edited message. */
  datatype MessageUpdate = MessageUpdate(Content: string, Embeds: seq<Embed>, Interaction: Option<Interaction>)

  /** Titles of create-event embeds that report a failed job, in declaration order. */
  const CreateFailureTitleList: seq<string> := [
    "Blocked",
    "Banned prompt",
    "Invalid parameter",
    "Banned prompt detected",
    "Invalid link",
    "Sorry! Could not complete the job!",
    "Action needed to continue",
    "Queue full",
    "Action required to continue",
    "Job action restricted",
    "Empty prompt"
  ]

  const CreateFailureTitles: set<string> := set t | t in CreateFailureTitleList

  /** Titles of update-event embeds that report a failed job. */
  const UpdateFailureTitles: set<string> := {"Request cancelled due to image filters"}

  predicate Distinct(s: seq<string>) {
    forall i, j :: 0 <= i < j < |s| ==> s[i] != s[j]
  }

  /** A list without repeats has as many members as elements. */
  lemma {:induction false} DistinctCard(s: seq<string>)
    requires Distinct(s)
    ensures |set x | x in s| == |s|
  {
    if s != [] {
      var t := s[..|s| - 1];
      DistinctCard(t);
      assert (set x | x in s) == (set x | x in t) + {s[|s| - 1]};
    }
  }

  /**
   * The create set has 11 titles and the update set 1, and no title is in
   * both.
   */
  lemma FailureTitleSets()
    ensures |CreateFailureTitles| == 11
    ensures |UpdateFailureTitles| == 1
    ensures CreateFailureTitles !! UpdateFailureTitles
  {
    var l := CreateFailureTitleList;
    var keys := seq(|l|, i requires 0 <= i < |l| => (|l[i]|, l[i][0]));
    assert keys == [(7, 'B'), (13, 'B'), (17, 'I'), (22, 'B'), (12, 'I'), (34, 'S'), (25, 'A'), (10, 'Q'), (27, 'A'), (21, 'J'), (12, 'E')];
    DistinctCard(l);
    var u := "Request cancelled due to image filters";
    assert u[0] == 'R';
  }
}
