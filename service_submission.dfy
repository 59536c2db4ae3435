/// The shift submission form (`ServiceSubmission`): it prefills the
/// submitter's name and rank, computes the shift length in whole minutes,
/// rejects a shift that ends before it starts, and appends an accepted shift
/// to the stored list.
///
/// The two `datetime-local` fields hold a timestamp in milliseconds, or
/// `None` while empty; parsing the text is not modelled.
module ServiceSubmission {
  import opened Records

  const MillisPerMinute: int := 1000 * 60

  /** The form state `newService`. */
  datatype ServiceForm = ServiceForm(serviceName: string, serviceRank: string, serviceStart: Option<int>, serviceEnd: Option<int>)

  /** The two editable date inputs (name and rank are read-only). */
  datatype DateField = StartField | EndField

  /** `Math.floor((endTime - startTime) / (1000 * 60))`: whole minutes, rounded down. */
  function DurationInMinutes(startTime: int, endTime: int): (d: int)
    ensures d * MillisPerMinute <= endTime - startTime < (d + 1) * MillisPerMinute
  {
    (endTime - startTime) / MillisPerMinute
  }

  /** The duration is negative exactly when the shift ends before it starts. */
  lemma NegativeIffEndsBeforeStart(startTime: int, endTime: int)
    ensures DurationInMinutes(startTime, endTime) < 0 <==> endTime < startTime
  {
    var d := DurationInMinutes(startTime, endTime);
    if d < 0 {
      assert (d + 1) * MillisPerMinute <= 0;
    }
  }

  class ServiceSubmission {
    const store: LocalStore
    const loggedInUser: string
    var newService: ServiceForm

    constructor (store: LocalStore, loggedInUser: string)
      ensures this.store == store && this.loggedInUser == loggedInUser
      ensures newService == ServiceForm("", "", None, None)
    {
      this.store := store;
      this.loggedInUser := loggedInUser;
      newService := ServiceForm("", "", None, None);
    }

    /** The effect run on mount: copy the logged-in user's full name and rank into the form. */
    method PrefillFromUser()
      modifies this`newService
      ensures FindUser(store.UserList(), loggedInUser).None? ==> newService == old(newService)
      ensures FindUser(store.UserList(), loggedInUser).Some? ==>
        var u := FindUser(store.UserList(), loggedInUser).value;
        newService == old(newService).(serviceName := u.fullName.GetOr(""), serviceRank := u.rank.GetOr(""))
    {
      var currentUser := FindUser(store.UserList(), loggedInUser);
      if currentUser.Some? {
        newService := newService.(serviceName := currentUser.value.fullName.GetOr(""),
                                  serviceRank := currentUser.value.rank.GetOr(""));
      }
    }

    /**
     * `handleInputChange` for a date input: only that field takes the typed
     * instant (`None` when the input is cleared).
     */
    method HandleInputChange(field: DateField, value: Option<int>)
      modifies this`newService
      ensures field == StartField ==> newService == old(newService).(serviceStart := value)
      ensures field == EndField ==> newService == old(newService).(serviceEnd := value)
    {
      if field == StartField {
        newService := newService.(serviceStart := value);
      } else {
        newService := newService.(serviceEnd := value);
      }
    }

    /**
     * `handleSubmit`. Both date fields are `required`, so the browser submits
     * only when they are filled. `accepted` is false when the error notice is
     * shown; `id` and `createdAt` are the clock readings the source takes.
     */
    method HandleSubmit(id: string, createdAt: string) returns (accepted: bool)
      requires newService.serviceStart.Some? && newService.serviceEnd.Some?
      modifies this`newService, store`services
      ensures accepted <==> old(newService.serviceStart.value) <= old(newService.serviceEnd.value)
      ensures !accepted ==> newService == old(newService) && store.services == old(store.services)
      ensures accepted ==>
        var f := old(newService);
        && store.services == old(store.services) +
             [Service(id, f.serviceName, f.serviceRank, f.serviceStart.value, f.serviceEnd.value,
                      DurationInMinutes(f.serviceStart.value, f.serviceEnd.value), createdAt, None)]
        && newService == f.(serviceStart := None, serviceEnd := None)
      ensures accepted ==> store.services[|store.services| - 1].durationInMinutes >= 0
    {
      var startTime := newService.serviceStart.value;
      var endTime := newService.serviceEnd.value;
      var durationInMinutes := DurationInMinutes(startTime, endTime);
      NegativeIffEndsBeforeStart(startTime, endTime);
      if durationInMinutes < 0 {
        return false;
      }
      var serviceToAdd := Service(id, newService.serviceName, newService.serviceRank, startTime, endTime,
                                  durationInMinutes, createdAt, None);
      var storedServices := store.services;
      store.services := storedServices + [serviceToAdd];
      newService := newService.(serviceStart := None, serviceEnd := None);
      accepted := true;
    }
  }

  /** 10:00 to 10:45 on the same day is 45 minutes; ending at 09:00 is rejected. */
  lemma SubmissionScenarios()
    ensures DurationInMinutes(36000000, 38700000) == 45
    ensures DurationInMinutes(36000000, 32400000) < 0
  {
  }
}
