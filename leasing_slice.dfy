/** The persisted parameter record of the leasing calculator
    (src/redux/leasingSlice.js): its default values, one reducer per field,
    and loading/saving the whole record under one storage key. */
module LeasingSlice {
  import opened Wrappers

  /** A stored scalar exactly as the form dispatched it: a number (or a
      numeric string), or `None` for NaN / an empty or non-numeric entry. */
  type Scalar = Option<real>

  /** The flat record of fifteen scalars the slice holds. */
  datatype LeasingRecord = LeasingRecord(
    leasingDuration: Scalar,
    oneTimePayment: Scalar,
    monthlyCost: Scalar,
    includedKm: Scalar,
    extraKmCost: Scalar,
    officeKm: Scalar,
    officeDays: Scalar,
    taxOfficeDays: Scalar,
    fixedKmPerYear: Scalar,
    taxReturn: Scalar,
    energyConsumption: Scalar,
    energyCost: Scalar,
    insuranceCostPerYear: Scalar,
    startMonth: Scalar,
    startYear: Scalar)

  /** The documented defaults; the start year is the year the page was
      loaded, passed in instead of read from the clock. */
  function DefaultRecord(currentYear: int): LeasingRecord
  {
    LeasingRecord(
      leasingDuration := Some(36.0),
      oneTimePayment := Some(5000.0),
      monthlyCost := Some(432.0),
      includedKm := Some(15000.0),
      extraKmCost := Some(0.0824),
      officeKm := Some(88.0),
      officeDays := Some(110.0),
      taxOfficeDays := Some(220.0),
      fixedKmPerYear := Some(10000.0),
      taxReturn := Some(0.30),
      energyConsumption := Some(22.0),
      energyCost := Some(0.38),
      insuranceCostPerYear := Some(790.0),
      startMonth := Some(5.0),
      startYear := Some(currentYear as real))
  }

  /** What parsing the stored text yields: a falsy JSON value (null, false,
      0, "") or a record. */
  datatype Parsed = Falsy | Stored(rec: LeasingRecord)

  /** The single key the record is stored under. */
  const StorageKey: string := "leasingState"

  /** The browser's key-value store. Reading or writing may throw (storage
      disabled, quota exceeded); the two flags say whether they do. */
  class KeyValueStore {
    var items: map<string, string>
    var readable: bool
    var writable: bool

    constructor (items: map<string, string>, readable: bool, writable: bool)
      ensures this.items == items && this.readable == readable && this.writable == writable
    {
      this.items := items;
      this.readable := readable;
      this.writable := writable;
    }
  }

  /** `loadState` on a store with the given contents: absent when reading
      throws, when the key is missing, or when parsing throws (`parse`
      returns `None`); otherwise whatever parsing produced. */
  function LoadFrom(items: map<string, string>, readable: bool,
                    parse: string -> Option<Parsed>): (r: Option<Parsed>)
    ensures !readable || StorageKey !in items ==> r == None
    ensures readable && StorageKey in items ==> r == parse(items[StorageKey])
  {
    if !readable then None
    else if StorageKey !in items then None
    else parse(items[StorageKey])
  }

  /** `loadState()` against the live store: absent when the store cannot
      be read or holds nothing under the key, otherwise the parse of what
      it holds there. */
  function LoadState(store: KeyValueStore, parse: string -> Option<Parsed>): (r: Option<Parsed>)
    reads store
    ensures !store.readable || StorageKey !in store.items ==> r == None
    ensures store.readable && StorageKey in store.items ==> r == parse(store.items[StorageKey])
  {
    LoadFrom(store.items, store.readable, parse)
  }

  /** `saveState(state)`: serialises the whole record and writes it under
      the key; a failing write is swallowed and leaves the store as it was. */
  method SaveState(store: KeyValueStore, state: LeasingRecord, stringify: LeasingRecord -> string)
    modifies store`items
    ensures store.writable ==> store.items == old(store.items)[StorageKey := stringify(state)]
    ensures !store.writable ==> store.items == old(store.items)
  {
    if store.writable {
      store.items := store.items[StorageKey := stringify(state)];
    }
  }

  /** `loadState() || defaults`: a loaded record replaces the defaults
      wholesale; absence or a falsy parse yields the defaults. */
  function InitialRecord(loaded: Option<Parsed>, currentYear: int): (r: LeasingRecord)
    ensures loaded.Some? && loaded.value.Stored? ==> r == loaded.value.rec
    ensures loaded.None? || loaded.value.Falsy? ==> r == DefaultRecord(currentYear)
  {
    match loaded
    case Some(Stored(rec)) => rec
    case _ => DefaultRecord(currentYear)
  }

  /** With nothing stored (or storage unreadable) the slice starts from the
      documented defaults. */
  lemma NothingStoredGivesDefaults(items: map<string, string>, readable: bool,
                                   parse: string -> Option<Parsed>, currentYear: int)
    requires !readable || StorageKey !in items
    ensures var r := InitialRecord(LoadFrom(items, readable, parse), currentYear);
      && r.leasingDuration == Some(36.0) && r.oneTimePayment == Some(5000.0)
      && r.monthlyCost == Some(432.0) && r.includedKm == Some(15000.0)
      && r.extraKmCost == Some(0.0824) && r.officeKm == Some(88.0)
      && r.officeDays == Some(110.0) && r.taxOfficeDays == Some(220.0)
      && r.fixedKmPerYear == Some(10000.0) && r.taxReturn == Some(0.30)
      && r.energyConsumption == Some(22.0) && r.energyCost == Some(0.38)
      && r.insuranceCostPerYear == Some(790.0) && r.startMonth == Some(5.0)
      && r.startYear == Some(currentYear as real)
  {
  }

  /** Saving and then loading gives the saved record back, provided the
      serialiser is lossless and the store accepts the write. */
  lemma SaveThenLoad(items: map<string, string>, state: LeasingRecord,
                     stringify: LeasingRecord -> string, parse: string -> Option<Parsed>,
                     currentYear: int)
    requires parse(stringify(state)) == Some(Stored(state))
    ensures LoadFrom(items[StorageKey := stringify(state)], true, parse) == Some(Stored(state))
    ensures InitialRecord(LoadFrom(items[StorageKey := stringify(state)], true, parse), currentYear) == state
  {
  }

  /** The same round trip through a live store: `saveState` followed by
      `loadState` yields the saved record, and the slice would start from
      it, when the store accepts reads and writes and the serialiser is
      lossless. */
  method SaveThenLoadStore(store: KeyValueStore, state: LeasingRecord,
                           stringify: LeasingRecord -> string, parse: string -> Option<Parsed>,
                           currentYear: int)
    requires store.readable && store.writable
    requires parse(stringify(state)) == Some(Stored(state))
    modifies store`items
    ensures LoadState(store, parse) == Some(Stored(state))
    ensures InitialRecord(LoadState(store, parse), currentYear) == state
  {
    SaveState(store, state, stringify);
  }

  /** The slice state: the record's fifteen fields, each assigned in place
      by its reducer. */
  class Slice {
    var leasingDuration: Scalar
    var oneTimePayment: Scalar
    var monthlyCost: Scalar
    var includedKm: Scalar
    var extraKmCost: Scalar
    var officeKm: Scalar
    var officeDays: Scalar
    var taxOfficeDays: Scalar
    var fixedKmPerYear: Scalar
    var taxReturn: Scalar
    var energyConsumption: Scalar
    var energyCost: Scalar
    var insuranceCostPerYear: Scalar
    var startMonth: Scalar
    var startYear: Scalar

    /** The current state as a record value (what `saveState` is given). */
    function Snapshot(): (r: LeasingRecord)
      reads this
    {
      LeasingRecord(leasingDuration, oneTimePayment, monthlyCost, includedKm,
                    extraKmCost, officeKm, officeDays, taxOfficeDays, fixedKmPerYear,
                    taxReturn, energyConsumption, energyCost, insuranceCostPerYear,
                    startMonth, startYear)
    }

    /** The slice's initial state: `loadState() || defaults`. */
    constructor (loaded: Option<Parsed>, currentYear: int)
      ensures Snapshot() == InitialRecord(loaded, currentYear)
    {
      var r := InitialRecord(loaded, currentYear);
      leasingDuration := r.leasingDuration;
      oneTimePayment := r.oneTimePayment;
      monthlyCost := r.monthlyCost;
      includedKm := r.includedKm;
      extraKmCost := r.extraKmCost;
      officeKm := r.officeKm;
      officeDays := r.officeDays;
      taxOfficeDays := r.taxOfficeDays;
      fixedKmPerYear := r.fixedKmPerYear;
      taxReturn := r.taxReturn;
      energyConsumption := r.energyConsumption;
      energyCost := r.energyCost;
      insuranceCostPerYear := r.insuranceCostPerYear;
      startMonth := r.startMonth;
      startYear := r.startYear;
    }

    method UpdateLeasingDuration(payload: Scalar)
      modifies this
      ensures Snapshot() == old(Snapshot()).(leasingDuration := payload)
    {
      leasingDuration := payload;
    }

    method UpdateOneTimePayment(payload: Scalar)
      modifies this
      ensures Snapshot() == old(Snapshot()).(oneTimePayment := payload)
    {
      oneTimePayment := payload;
    }

    method UpdateMonthlyCost(payload: Scalar)
      modifies this
      ensures Snapshot() == old(Snapshot()).(monthlyCost := payload)
    {
      monthlyCost := payload;
    }

    method UpdateIncludedKm(payload: Scalar)
      modifies this
      ensures Snapshot() == old(Snapshot()).(includedKm := payload)
    {
      includedKm := payload;
    }

    method UpdateExtraKmCost(payload: Scalar)
      modifies this
      ensures Snapshot() == old(Snapshot()).(extraKmCost := payload)
    {
      extraKmCost := payload;
    }

    method UpdateOfficeKm(payload: Scalar)
      modifies this
      ensures Snapshot() == old(Snapshot()).(officeKm := payload)
    {
      officeKm := payload;
    }

    method UpdateOfficeDays(payload: Scalar)
      modifies this
      ensures Snapshot() == old(Snapshot()).(officeDays := payload)
    {
      officeDays := payload;
    }

    method UpdateTaxOfficeDays(payload: Scalar)
      modifies this
      ensures Snapshot() == old(Snapshot()).(taxOfficeDays := payload)
    {
      taxOfficeDays := payload;
    }

    method UpdateFixedKmPerYear(payload: Scalar)
      modifies this
      ensures Snapshot() == old(Snapshot()).(fixedKmPerYear := payload)
    {
      fixedKmPerYear := payload;
    }

    method UpdateTaxReturn(payload: Scalar)
      modifies this
      ensures Snapshot() == old(Snapshot()).(taxReturn := payload)
    {
      taxReturn := payload;
    }

    method UpdateEnergyConsumption(payload: Scalar)
      modifies this
      ensures Snapshot() == old(Snapshot()).(energyConsumption := payload)
    {
      energyConsumption := payload;
    }

    method UpdateEnergyCost(payload: Scalar)
      modifies this
      ensures Snapshot() == old(Snapshot()).(energyCost := payload)
    {
      energyCost := payload;
    }

    method UpdateInsuranceCostPerYear(payload: Scalar)
      modifies this
      ensures Snapshot() == old(Snapshot()).(insuranceCostPerYear := payload)
    {
      insuranceCostPerYear := payload;
    }

    method UpdateStartMonth(payload: Scalar)
      modifies this
      ensures Snapshot() == old(Snapshot()).(startMonth := payload)
    {
      startMonth := payload;
    }

    method UpdateStartYear(payload: Scalar)
      modifies this
      ensures Snapshot() == old(Snapshot()).(startYear := payload)
    {
      startYear := payload;
    }
  }
}
