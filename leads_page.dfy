/**
  The state of the Leads page (src/pages/Leads.jsx) and its handlers: the
  lead list, the lead open in the detail view, the card being dragged, and
  the toasts raised so far. Every handler replaces these fields the way the
  page's state setters do.
*/
module LeadsPage {
  import opened Common
  import opened LeadPipeline

  const LeadAdded: Notice := Notice(Success, "New lead added successfully!")
  const StatusUpdated: Notice := Notice(Success, "Lead status updated!")
  const LeadUpdated: Notice := Notice(Success, "Lead updated successfully!")
  const LeadDeleted: Notice := Notice(Success, "Lead deleted successfully!")

  class Leads {
    var leads: seq<Lead>
    var selected: Option<Lead>
    var dragged: Option<Lead>
    var notices: seq<Notice>

    /** The page mounts with the given sample leads, nothing selected or dragged, and no toast. */
    constructor (seed: seq<Lead>)
      ensures leads == seed && selected == None && dragged == None && notices == []
    {
      leads := seed;
      selected := None;
      dragged := None;
      notices := [];
    }

    /** `addNewLead`: appends the new lead after all others and reports success. */
    method AddNewLead(draft: LeadDraft, newId: string, now: int)
      modifies this
      ensures leads == old(leads) + [NewLead(draft, newId, now)]
      ensures |leads| == |old(leads)| + 1 && leads[..|old(leads)|] == old(leads)
      ensures notices == old(notices) + [LeadAdded]
      ensures selected == old(selected) && dragged == old(dragged)
      ensures ContactAfterCreation(old(leads)) ==> ContactAfterCreation(leads)
    {
      leads := leads + [NewLead(draft, newId, now)];
      notices := notices + [LeadAdded];
    }

    /**
      `updateLeadStatus`: re-stages every lead with the id and stamps it;
      the toast is raised even when no lead has the id.
    */
    method UpdateLeadStatus(id: string, status: string, now: int)
      modifies this
      ensures leads == WithStatus(old(leads), id, status, now)
      ensures notices == old(notices) + [StatusUpdated]
      ensures selected == old(selected) && dragged == old(dragged)
      ensures ContactAfterCreation(old(leads)) && CreatedBy(old(leads), now) ==> ContactAfterCreation(leads)
    {
      leads := WithStatus(leads, id, status, now);
      notices := notices + [StatusUpdated];
    }

    /** `updateLead`: overlays the patch on every lead with the id, stamping `lastContact`. */
    method UpdateLead(id: string, patch: LeadPatch, now: int)
      modifies this
      ensures leads == Edited(old(leads), id, patch, now)
      ensures notices == old(notices) + [LeadUpdated]
      ensures selected == old(selected) && dragged == old(dragged)
    {
      leads := Edited(leads, id, patch, now);
      notices := notices + [LeadUpdated];
    }

    /**
      `deleteLead`: only when the user confirms, removes every lead with the
      id, closes the detail view and reports success; otherwise nothing happens.
    */
    method DeleteLead(id: string, confirmed: bool)
      modifies this
      ensures confirmed ==> leads == Removed(old(leads), id) && selected == None && notices == old(notices) + [LeadDeleted]
      ensures !confirmed ==> leads == old(leads) && selected == old(selected) && notices == old(notices)
      ensures dragged == old(dragged)
    {
      if confirmed {
        leads := Removed(leads, id);
        selected := None;
        notices := notices + [LeadDeleted];
      }
    }

    /** Clicking a card opens the detail view on a copy of that lead. */
    method SelectLead(lead: Lead)
      modifies this
      ensures selected == Some(lead)
      ensures leads == old(leads) && dragged == old(dragged) && notices == old(notices)
    {
      selected := Some(lead);
    }

    /** Closing the detail view. */
    method CloseDetail()
      modifies this
      ensures selected == None
      ensures leads == old(leads) && dragged == old(dragged) && notices == old(notices)
    {
      selected := None;
    }

    /** `handleDragStart`: remembers a copy of the dragged lead. */
    method DragStart(lead: Lead)
      modifies this
      ensures dragged == Some(lead)
      ensures leads == old(leads) && selected == old(selected) && notices == old(notices)
    {
      dragged := Some(lead);
    }

    /**
      `handleDrop`: re-stages the dragged lead only when there is one and its
      stage differs from the target column; the drag is forgotten either way.
    */
    method Drop(stage: string, now: int)
      modifies this
      ensures dragged == None && selected == old(selected)
      ensures old(dragged).Some? && old(dragged).value.status != stage ==>
        leads == WithStatus(old(leads), old(dragged).value.id, stage, now) && notices == old(notices) + [StatusUpdated]
      ensures old(dragged).None? || old(dragged).value.status == stage ==>
        leads == old(leads) && notices == old(notices)
    {
      if dragged.Some? && dragged.value.status != stage {
        UpdateLeadStatus(dragged.value.id, stage, now);
      }
      dragged := None;
    }

    /**
      `AddLeadForm.handleSubmit` wired to `addNewLead`: an incomplete form
      raises the error toast and changes nothing else; a complete one adds
      the lead built from the converted fields.
    */
    method SubmitAddLead(form: LeadForm, newId: string, now: int)
      modifies this
      ensures SubmitLeadForm(form).Err? ==>
        leads == old(leads) && notices == old(notices) + [Notice(Error, RequiredFieldsMessage)]
      ensures SubmitLeadForm(form).Ok? ==>
        leads == old(leads) + [NewLead(SubmitLeadForm(form).value, newId, now)] && notices == old(notices) + [LeadAdded]
      ensures selected == old(selected) && dragged == old(dragged)
    {
      match SubmitLeadForm(form)
      case Err(message) =>
        notices := notices + [Notice(Error, message)];
      case Ok(draft) =>
        AddNewLead(draft, newId, now);
    }

    /**
      `LeadDetailView.handleSaveEdit`: the detail view's edit data is the lead
      it was opened on, so saving writes that snapshot back over every lead
      with its id; `updateLead` and the view each raise a success toast.
    */
    method SaveEdit(now: int)
      requires selected.Some?
      modifies this
      ensures leads == Edited(old(leads), old(selected).value.id, FullPatch(old(selected).value), now)
      ensures notices == old(notices) + [LeadUpdated, LeadUpdated]
      ensures selected == old(selected) && dragged == old(dragged)
    {
      var snapshot := selected.value;
      UpdateLead(snapshot.id, FullPatch(snapshot), now);
      notices := notices + [LeadUpdated];
    }
  }
}
