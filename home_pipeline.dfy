/**
  The pipeline board on the home page (src/components/MainFeature.jsx): the
  same lead engine as the Leads page, with adding, re-staging and
  drag-and-drop but no edit and no delete.
*/
module HomePipeline {
  import opened Common
  import opened LeadPipeline

  const LeadAdded: Notice := Notice(Success, "New lead added successfully!")
  const StatusUpdated: Notice := Notice(Success, "Lead status updated!")

  class MainFeature {
    var leads: seq<Lead>
    var selected: Option<Lead>
    var dragged: Option<Lead>
    var notices: seq<Notice>

    /** The board mounts with the given sample leads, nothing selected or dragged, and no toast. */
    constructor (seed: seq<Lead>)
      ensures leads == seed && selected == None && dragged == None && notices == []
    {
      leads := seed;
      selected := None;
      dragged := None;
      notices := [];
    }

    /** `addNewLead`: appends the new lead after all others and reports success. */
    method AddNewLead(draft: LeadDraft, newId: string, now: int)
      modifies this
      ensures leads == old(leads) + [NewLead(draft, newId, now)]
      ensures notices == old(notices) + [LeadAdded]
      ensures selected == old(selected) && dragged == old(dragged)
      ensures ContactAfterCreation(old(leads)) ==> ContactAfterCreation(leads)
    {
      leads := leads + [NewLead(draft, newId, now)];
      notices := notices + [LeadAdded];
    }

    /** `updateLeadStatus`: re-stages every lead with the id and stamps it; the toast is raised regardless. */
    method UpdateLeadStatus(id: string, status: string, now: int)
      modifies this
      ensures leads == WithStatus(old(leads), id, status, now)
      ensures notices == old(notices) + [StatusUpdated]
      ensures selected == old(selected) && dragged == old(dragged)
      ensures ContactAfterCreation(old(leads)) && CreatedBy(old(leads), now) ==> ContactAfterCreation(leads)
    {
      leads := WithStatus(leads, id, status, now);
      notices := notices + [StatusUpdated];
    }

    /** Clicking a card opens the detail view on a copy of that lead. */
    method SelectLead(lead: Lead)
      modifies this
      ensures selected == Some(lead)
      ensures leads == old(leads) && dragged == old(dragged) && notices == old(notices)
    {
      selected := Some(lead);
    }

    /** Closing the detail view. */
    method CloseDetail()
      modifies this
      ensures selected == None
      ensures leads == old(leads) && dragged == old(dragged) && notices == old(notices)
    {
      selected := None;
    }

    /** `handleDragStart`: remembers a copy of the dragged lead. */
    method DragStart(lead: Lead)
      modifies this
      ensures dragged == Some(lead)
      ensures leads == old(leads) && selected == old(selected) && notices == old(notices)
    {
      dragged := Some(lead);
    }

    /**
      `handleDrop`: re-stages the dragged lead only when there is one and its
      stage differs from the target column; a drop on its own column leaves
      the list and the toasts alone. The drag is forgotten either way.
    */
    method Drop(stage: string, now: int)
      modifies this
      ensures dragged == None && selected == old(selected)
      ensures old(dragged).Some? && old(dragged).value.status != stage ==>
        leads == WithStatus(old(leads), old(dragged).value.id, stage, now) && notices == old(notices) + [StatusUpdated]
      ensures old(dragged).None? || old(dragged).value.status == stage ==>
        leads == old(leads) && notices == old(notices)
    {
      if dragged.Some? && dragged.value.status != stage {
        UpdateLeadStatus(dragged.value.id, stage, now);
      }
      dragged := None;
    }

    /** `AddLeadForm.handleSubmit` wired to `addNewLead`. */
    method SubmitAddLead(form: LeadForm, newId: string, now: int)
      modifies this
      ensures SubmitLeadForm(form).Err? ==>
        leads == old(leads) && notices == old(notices) + [Notice(Error, RequiredFieldsMessage)]
      ensures SubmitLeadForm(form).Ok? ==>
        leads == old(leads) + [NewLead(SubmitLeadForm(form).value, newId, now)] && notices == old(notices) + [LeadAdded]
      ensures selected == old(selected) && dragged == old(dragged)
    {
      match SubmitLeadForm(form)
      case Err(message) =>
        notices := notices + [Notice(Error, message)];
      case Ok(draft) =>
        AddNewLead(draft, newId, now);
    }
  }
}
