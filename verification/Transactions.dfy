/** What the modules that read and complete transactions share. */
module Transactions {
  datatype TransactionStatus = DRAFT | PROCESSING | SUCCESS | CANCEL | FAILED
}
