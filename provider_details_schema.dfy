/** The ProviderDetails document: verification and payment state of a provider. */
module ProviderDetailsSchema {
  import opened Common

  datatype Verification = Pending | Verified | Rejected

  /** The payment enumeration. There is no `isPaid` path: a write to it is
      dropped by the schema. */
  datatype PaymentStatus = Free | Unpaid | Paid

  /** A provider's details, keyed in the store by the provider's user id. */
  datatype ProviderDetails = ProviderDetails(
    verificationStatus: Verification,
    adminNotes: Option<string>,
    idDocumentName: string,
    idDocumentPath: string,
    paymentStatus: PaymentStatus,
    paidAmount: int,
    freePlanExpiry: Option<int>,
    lastReminderDate: Option<int>)

  /** The details created from an uploaded ID document, with the schema's
      defaults: pending verification, free plan, nothing paid. */
  function NewDetails(documentName: string, documentPath: string): (d: ProviderDetails)
    ensures d.verificationStatus == Pending && d.paymentStatus == Free && d.paidAmount == 0
    ensures d.adminNotes == None && d.freePlanExpiry == None && d.lastReminderDate == None
    ensures d.idDocumentName == documentName && d.idDocumentPath == documentPath
    ensures HasRequiredFields(d) <==> documentName != "" && documentPath != ""
  {
    ProviderDetails(Pending, None, documentName, documentPath, Free, 0, None, None)
  }

  /** The `required` validators on the ID document's name and path. */
  predicate HasRequiredFields(d: ProviderDetails) {
    d.idDocumentName != "" && d.idDocumentPath != ""
  }
}
