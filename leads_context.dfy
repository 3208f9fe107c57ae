/** The in-session lead collection and its bulk delete
    (src/context/LeadsContext.tsx). */
module LeadsContext {
  import opened Interfaces
  import opened Seqs

  /** What the delete endpoint reported; `None` is the `undefined` the client
      yields when no token is stored. */
  datatype ApiResult = ApiResult(success: bool, message: string)

  /** The filter predicate of the delete: `!leadIds.includes(lead.id!)`. A lead
      without an id yields `undefined`, which no string list includes. */
  function Survives(leadIds: seq<string>): Lead -> bool
  {
    (lead: Lead) => !(lead.id.Some? && lead.id.value in leadIds)
  }

  /** The collection after a confirmed delete of leadIds. */
  function Remaining(leads: seq<Lead>, leadIds: seq<string>): seq<Lead>
  {
    Filter(leads, Survives(leadIds))
  }

  /** After a confirmed delete no lead with a deleted id is left, every other
      lead is left, and the survivors keep their occurrences and relative
      order. */
  lemma RemainingExactly(leads: seq<Lead>, leadIds: seq<string>)
    ensures forall l :: l in Remaining(leads, leadIds) ==> !(l.id.Some? && l.id.value in leadIds)
    ensures forall l :: l in leads && !(l.id.Some? && l.id.value in leadIds) ==> l in Remaining(leads, leadIds)
    ensures forall l :: l in leads && !(l.id.Some? && l.id.value in leadIds) ==>
              multiset(Remaining(leads, leadIds))[l] == multiset(leads)[l]
    ensures SubsequenceOf(Remaining(leads, leadIds), leads)
  {
    forall l | l in leads && !(l.id.Some? && l.id.value in leadIds)
      ensures multiset(Remaining(leads, leadIds))[l] == multiset(leads)[l]
    {
      FilterCount(leads, Survives(leadIds), l);
    }
    FilterIsSubsequence(leads, Survives(leadIds));
  }

  /** A lead without an id is never removed. */
  lemma NoIdSurvives(leads: seq<Lead>, leadIds: seq<string>, l: Lead)
    requires l in leads && l.id.None?
    ensures l in Remaining(leads, leadIds)
  {
  }

  /** Deleting an empty id list changes nothing. */
  lemma RemainingNoIds(leads: seq<Lead>)
    ensures Remaining(leads, []) == leads
  {
    FilterAllPass(leads, Survives([]));
  }

  /** Deleting the same ids a second time changes nothing more. */
  lemma RemainingIdempotent(leads: seq<Lead>, leadIds: seq<string>)
    ensures Remaining(Remaining(leads, leadIds), leadIds) == Remaining(leads, leadIds)
  {
    FilterIdempotent(leads, Survives(leadIds));
  }

  /** A delete keeps the collection free of duplicate ids. */
  lemma {:induction false} RemainingKeepsUniqueIds(leads: seq<Lead>, leadIds: seq<string>)
    requires UniqueIds(leads)
    ensures UniqueIds(Remaining(leads, leadIds))
    decreases |leads|
  {
    if leads != [] {
      var rest := leads[1..];
      assert UniqueIds(rest) by {
        forall i, j | 0 <= i < j < |rest| && rest[i].id.Some? ensures rest[i].id != rest[j].id {
          assert rest[i] == leads[i + 1] && rest[j] == leads[j + 1];
        }
      }
      RemainingKeepsUniqueIds(rest, leadIds);
      var tail := Remaining(rest, leadIds);
      if Survives(leadIds)(leads[0]) {
        var r := Remaining(leads, leadIds);
        assert r == [leads[0]] + tail;
        forall i, j | 0 <= i < j < |r| && r[i].id.Some? ensures r[i].id != r[j].id {
          if i == 0 {
            assert r[j] == tail[j - 1] && r[j] in rest;
            var k :| 0 <= k < |rest| && rest[k] == r[j];
            assert leads[k + 1] == r[j];
          } else {
            assert r[i] == tail[i - 1] && r[j] == tail[j - 1];
          }
        }
      }
    }
  }

  /** The provider's state: the ordered list of leads of this session. */
  class LeadsStore {
    var leads: seq<Lead>

    constructor ()
      ensures leads == []
    {
      leads := [];
    }

    /** `deleteLeads(leadIds)` with the endpoint's answer given as result: the
        list is filtered on success and left alone on failure or no answer. */
    method DeleteLeads(leadIds: seq<string>, result: Option<ApiResult>)
      modifies this
      ensures result.Some? && result.value.success ==> leads == Remaining(old(leads), leadIds)
      ensures !(result.Some? && result.value.success) ==> leads == old(leads)
    {
      if result.Some? && result.value.success {
        leads := Filter(leads, Survives(leadIds));
      }
    }
  }
}
