/** Where a name of the service-wide glossary stands. */
module GlossaryStatus {
  datatype Status = Candidate | Proposed | Verified | Rejected | Locked
}
