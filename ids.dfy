/** Document identifiers shared by the cart and user rules. */
module Ids {

  /** The collection whose insert minted an id. */
  datatype Collection = UserDocs | CartDocs | DishDocs

  /**
   * A MongoDB ObjectId. Every insert mints a fresh one, so an id minted for one
   * collection never equals an id minted for another: the model keeps the
   * minting collection beside a serial number.
   */
  datatype ObjectId = ObjectId(minted: Collection, serial: nat)
}
