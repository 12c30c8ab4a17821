/** The confirmation dialog both delete flows go through: it reacts only
    while open, and every answer closes it. */
module AlertDialog {

  /** The three ways a user can answer a shown dialog. */
  datatype DialogInput = Confirm | Dismiss | TouchOutside

  datatype DialogOutcome = DialogOutcome(confirmed: bool, open: bool)

  /** One answer to the dialog whose visibility flag is `open`: a closed
      dialog is not on screen and confirms nothing; an open one runs the
      yes-callback only for the confirm button, and closes in every case. */
  function Answer(open: bool, input: DialogInput): (r: DialogOutcome)
    ensures !r.open
    ensures r.confirmed <==> open && input == Confirm
  {
    if !open then DialogOutcome(false, false)
    else DialogOutcome(input == Confirm, false)
  }

  /** A second answer right after the first can never confirm: the first one
      closed the dialog. */
  lemma NoDoubleConfirm(open: bool, first: DialogInput, second: DialogInput)
    ensures !Answer(Answer(open, first).open, second).confirmed
  {
  }
}
