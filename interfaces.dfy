/** The record types shared by the lead screens (src/types/interfaces.ts). */
module Interfaces {

  /** A TypeScript optional property: absent (`undefined`) or present. */
  datatype Option<T> = None | Some(value: T)

  /** One captured prospect. The server assigns `id`; a lead not yet stored has
      none. */
  datatype Lead = Lead(
    id: Option<string>,
    fullName: string,
    email: string,
    phone: Option<string>,
    companyName: Option<string>,
    notes: Option<string>,
    createdAt: Option<string>)

  /** Every lead carries an id, as the dashboard's `lead.id!` assumes. */
  predicate HasIds(leads: seq<Lead>)
  {
    forall i :: 0 <= i < |leads| ==> leads[i].id.Some?
  }

  /** `leads.map((lead) => lead.id!)` */
  function Ids(leads: seq<Lead>): (ids: seq<string>)
    requires HasIds(leads)
    ensures |ids| == |leads|
    ensures forall i :: 0 <= i < |leads| ==> ids[i] == leads[i].id.value
  {
    seq(|leads|, i requires 0 <= i < |leads| => leads[i].id.value)
  }

  /** No two leads share a defined id. */
  ghost predicate UniqueIds(leads: seq<Lead>)
  {
    forall i, j :: 0 <= i < j < |leads| && leads[i].id.Some? ==> leads[i].id != leads[j].id
  }
}
