/**
  * The messages the web client shows (their Russian texts are not modelled,
  * only which one is shown).
  */
module Messages {
  datatype Msg =
    | LoadFailed        // handleFetchError's default: loading the data failed
    | NotNumbers        // random form: the bounds and the count must be numbers
    | CountNotPositive  // random form: the count must be above 0
    | CountTooLarge     // random form: generation is limited to 3 million elements
    | MaxNotAboveMin    // random form: the maximum must be above the minimum
    | NoValidData       // file form: the file holds no valid data
    | ReadFailed        // file form: reading the file failed
    | NotTxtFile        // file form: the file name must end in .txt
    | Added             // create form: the array was added to the database
    | AddedAndSorted    // create form: the array was added and sorted
}
