/**
 * The violation record. In the service it is a mutable bean with four nullable
 * string fields, a no-argument and an all-arguments constructor, a getter and a
 * setter per field. `Violation` is the value a record holds at one moment.
 */
module Violations {
  import opened Wrappers

  /** The four fields of a record, `None` standing for `null`. */
  datatype Violation = Violation(
    dateTime: Option<string>,
    location: Option<string>,
    violationType: Option<string>,
    status: Option<string>)

  /** What a freshly allocated record holds: nothing. */
  const Blank := Violation(None, None, None, None)

  class TrafficViolation {
    var dateTime: Option<string>
    var location: Option<string>
    var violationType: Option<string>
    var status: Option<string>

    /** The no-argument constructor: every field is null. */
    constructor Empty()
      ensures GetDateTime() == None && GetLocation() == None
      ensures GetViolationType() == None && GetStatus() == None
      ensures Value() == Blank
    {
      dateTime, location, violationType, status := None, None, None, None;
    }

    /** The all-arguments constructor, in field declaration order. */
    constructor (dateTime: Option<string>, location: Option<string>,
                 violationType: Option<string>, status: Option<string>)
      ensures GetDateTime() == dateTime && GetLocation() == location
      ensures GetViolationType() == violationType && GetStatus() == status
      ensures Value() == Violation(dateTime, location, violationType, status)
    {
      this.dateTime := dateTime;
      this.location := location;
      this.violationType := violationType;
      this.status := status;
    }

    function GetDateTime(): Option<string> reads this { dateTime }
    function GetLocation(): Option<string> reads this { location }
    function GetViolationType(): Option<string> reads this { violationType }
    function GetStatus(): Option<string> reads this { status }

    /** The record's current contents as a value. */
    function Value(): Violation
      reads this
    {
      Violation(dateTime, location, violationType, status)
    }

    method SetDateTime(v: Option<string>)
      modifies this
      ensures GetDateTime() == v
      ensures GetLocation() == old(GetLocation()) && GetViolationType() == old(GetViolationType())
      ensures GetStatus() == old(GetStatus())
      ensures Value() == old(Value()).(dateTime := v)
    {
      dateTime := v;
    }

    method SetLocation(v: Option<string>)
      modifies this
      ensures GetLocation() == v
      ensures GetDateTime() == old(GetDateTime()) && GetViolationType() == old(GetViolationType())
      ensures GetStatus() == old(GetStatus())
      ensures Value() == old(Value()).(location := v)
    {
      location := v;
    }

    method SetViolationType(v: Option<string>)
      modifies this
      ensures GetViolationType() == v
      ensures GetDateTime() == old(GetDateTime()) && GetLocation() == old(GetLocation())
      ensures GetStatus() == old(GetStatus())
      ensures Value() == old(Value()).(violationType := v)
    {
      violationType := v;
    }

    method SetStatus(v: Option<string>)
      modifies this
      ensures GetStatus() == v
      ensures GetDateTime() == old(GetDateTime()) && GetLocation() == old(GetLocation())
      ensures GetViolationType() == old(GetViolationType())
      ensures Value() == old(Value()).(status := v)
    {
      status := v;
    }
  }
}
