/**
  * The search field of the arrays page (lab-2-web/frontend/src/components/form/SearchForm.js):
  * the search id is the entered text, or null (None) for an empty field.
  */
module SearchForm {
  import opened Options

  /** `searchId || ""`: what the field shows. */
  function Shown(searchId: Option<string>): (text: string)
    ensures searchId.None? ==> text == ""
    ensures searchId.Some? ==> text == searchId.value
  {
    if searchId.Some? then searchId.value else ""
  }

  /** `value || null`: the search id for the entered text, verbatim, with no trimming or numeric check. */
  function Entered(text: string): (searchId: Option<string>)
    ensures searchId.None? <==> text == ""
    ensures searchId.Some? ==> searchId.value == text
  {
    if text == "" then None else Some(text)
  }

  /** Entering a text and showing its id gives the text back. */
  lemma ShownEntered(text: string)
    ensures Shown(Entered(text)) == text
  {
  }

  /** Showing an id the field could have produced and entering it again gives the same id. */
  lemma EnteredShown(searchId: Option<string>)
    requires searchId != Some("")
    ensures Entered(Shown(searchId)) == searchId
  {
  }
}
