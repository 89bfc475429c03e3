/** Document identifiers. MongoDB ObjectIds are opaque; only equality matters here. */
module Ids {
  type ObjectId = nat
}
