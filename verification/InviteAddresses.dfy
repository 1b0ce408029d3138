/** The addresses invites are stored under: always in the normal form of the services, which is
    why the queries of erasure, which trim blanks only, find every invite of a subject. */
module InviteAddresses {
  import opened Common
  import opened Records
  import opened DeliverySystem
  import opened Scrubbing
  import opened TextRules

  ghost predicate AllNormalised(invites: map<InviteId, Invite>) {
    forall i :: i in invites ==> Normalised(invites[i].email) == invites[i].email
  }

  /** A step keeps an invite's address, replaces it by its tombstone, or stores a normalised one. */
  lemma StepAddress(s: System, step: Step, i: InviteId)
    requires Enabled(s, step) && i in Apply(s, step).db.invites
    ensures var email := Apply(s, step).db.invites[i].email;
      || (i in s.db.invites && email == s.db.invites[i].email)
      || email == ScrubbedEmail(i)
      || exists typed :: email == Normalised(typed)
  {
    hide ScrubbedEmail, Normalised;
    if step.CreateInvite? && step.invite == i {
      assert Apply(s, step).db.invites[i].email == Normalised(step.row.email);
    }
  }

  lemma StepKeepsNormalised(s: System, step: Step)
    requires Enabled(s, step) && AllNormalised(s.db.invites)
    ensures AllNormalised(Apply(s, step).db.invites)
  {
    hide Enabled, Apply, ScrubbedEmail, Normalised;
    var after := Apply(s, step).db.invites;
    forall i | i in after ensures Normalised(after[i].email) == after[i].email {
      StepAddress(s, step, i);
      TombstoneIsPlain(i);
      PlainIsNormal(ScrubbedEmail(i));
      if exists typed :: after[i].email == Normalised(typed) {
        var typed :| after[i].email == Normalised(typed);
        NormalisedTwice(typed);
      }
    }
  }

  lemma {:induction false} RunKeepsNormalised(s: System, run: seq<Step>)
    requires IsRun(s, run) && AllNormalised(s.db.invites)
    ensures AllNormalised(Final(s, run).db.invites)
    decreases |run|
  {
    hide Enabled, Apply, AllNormalised;
    if run != [] {
      StepKeepsNormalised(s, run[0]);
      RunKeepsNormalised(Apply(s, run[0]), run[1..]);
    }
  }

  /** In every reachable state a query for an address finds exactly the invites the services
      would recognise by it: blanks are all SQL trims, and nothing else was left to trim. */
  lemma QueriesFindEveryInvite(s: System, run: seq<Step>, i: InviteId, email: string)
    requires Initial(s) && IsRun(s, run) && i in Final(s, run).db.invites
    ensures var row := Final(s, run).db.invites[i];
      SqlNormalised(row.email) == email <==> IsInvitee(row, Some(email))
  {
    hide Enabled, Apply, Normalised, SqlNormalised;
    RunKeepsNormalised(s, run);
    NormalisedIsSqlNormal(Final(s, run).db.invites[i].email);
  }
}
