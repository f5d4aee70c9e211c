/** The address autocomplete (src/components/LocationInput.tsx): how a
    place's types pick its icon and label, and how typing updates the
    input text and the suggestion list. The Google Places service is
    represented by its answers, which the handlers take as parameters. */
module LocationInput {
  import opened Common

  // ---------------------------------------------------------------------
  // Place types
  // ---------------------------------------------------------------------

  /** The rule that decides a place's icon and label: the first of the
      five types, in this order, that the place has. */
  datatype PlaceKind = Business | Address | Street | City | Neighborhood | Other

  /** The type each kind looks for, in priority order. */
  const Priority: seq<string> := ["establishment", "street_address", "route", "locality", "sublocality"]

  /** The kind of the first priority type present. */
  function Classify(types: seq<string>): (k: PlaceKind)
    ensures k == Other <==> forall i :: 0 <= i < |Priority| ==> Priority[i] !in types
    ensures k != Other ==>
      (Priority[KindIndex(k)] in types && forall i :: 0 <= i < KindIndex(k) ==> Priority[i] !in types)
  {
    assert Priority[0] == "establishment" && Priority[1] == "street_address" && Priority[2] == "route"
      && Priority[3] == "locality" && Priority[4] == "sublocality";
    if "establishment" in types then Business
    else if "street_address" in types then Address
    else if "route" in types then Street
    else if "locality" in types then City
    else if "sublocality" in types then Neighborhood
    else Other
  }

  /** The position in `Priority` of a kind other than `Other`. */
  function KindIndex(k: PlaceKind): nat
    requires k != Other
  {
    match k
    case Business => 0
    case Address => 1
    case Street => 2
    case City => 3
    case Neighborhood => 4
  }

  /** `getPlaceTypeIcon(types)`, its own if-chain. */
  function PlaceTypeIcon(types: seq<string>): string {
    if "establishment" in types then "\U{1F3E2}"
    else if "street_address" in types then "\U{1F4CD}"
    else if "route" in types then "\U{1F6E3}\U{FE0F}"
    else if "locality" in types then "\U{1F3D9}\U{FE0F}"
    else if "sublocality" in types then "\U{1F3D8}\U{FE0F}"
    else "\U{1F4CD}"
  }

  /** `getPlaceTypeLabel(types)`, its own if-chain. */
  function PlaceTypeLabel(types: seq<string>): string {
    if "establishment" in types then "Business"
    else if "street_address" in types then "Address"
    else if "route" in types then "Street"
    else if "locality" in types then "City"
    else if "sublocality" in types then "Neighborhood"
    else "Location"
  }

  function KindIcon(k: PlaceKind): string {
    match k
    case Business => "\U{1F3E2}"
    case Address => "\U{1F4CD}"
    case Street => "\U{1F6E3}\U{FE0F}"
    case City => "\U{1F3D9}\U{FE0F}"
    case Neighborhood => "\U{1F3D8}\U{FE0F}"
    case Other => "\U{1F4CD}"
  }

  function KindLabel(k: PlaceKind): string {
    match k
    case Business => "Business"
    case Address => "Address"
    case Street => "Street"
    case City => "City"
    case Neighborhood => "Neighborhood"
    case Other => "Location"
  }

  /** The icon and the label come from the same rule: both are the kind's
      icon and label. */
  lemma IconAndLabelAgree(types: seq<string>)
    ensures PlaceTypeIcon(types) == KindIcon(Classify(types))
    ensures PlaceTypeLabel(types) == KindLabel(Classify(types))
  {
  }

  /** The label tells the kind apart, so equal labels give equal icons;
      the icon does not (a street address and an unknown place share the
      pin). */
  lemma LabelDeterminesIcon(a: seq<string>, b: seq<string>)
    requires PlaceTypeLabel(a) == PlaceTypeLabel(b)
    ensures PlaceTypeIcon(a) == PlaceTypeIcon(b)
  {
    IconAndLabelAgree(a);
    IconAndLabelAgree(b);
  }

  /** The pin is shared: `street_address` and no known type. */
  lemma IconNotInjective()
    ensures PlaceTypeIcon(["street_address"]) == PlaceTypeIcon([])
    ensures PlaceTypeLabel(["street_address"]) != PlaceTypeLabel([])
  {
    assert "establishment" !in ["street_address"];
  }

  // ---------------------------------------------------------------------
  // Typing
  // ---------------------------------------------------------------------

  /** `input.length`: UTF-16 code units, two for a character beyond the
      Basic Multilingual Plane. */
  function Utf16Length(s: string): (n: nat)
    ensures |s| <= n <= 2 * |s|
  {
    if s == [] then 0 else (if (s[0] as int) < 0x10000 then 1 else 2) + Utf16Length(s[1..])
  }

  /** A suggestion. */
  datatype Prediction = Prediction(description: string, placeId: string, types: seq<string>)

  datatype Status = Ok | ZeroResults | OtherStatus

  /** The answer of `getPlacePredictions`: its status and its results
      (`None` for `null`). */
  datatype Answer = Answer(status: Status, predictions: Option<seq<Prediction>>)

  /** The places `fetchPlaces(input)` stores. */
  function FetchedPlaces(serviceReady: bool, input: string, answer: Answer): (r: seq<Prediction>)
    ensures r != [] ==>
      (serviceReady && Trim(input) != [] && answer.status == Ok && answer.predictions == Some(r))
    ensures serviceReady && Trim(input) != [] && answer.status == Ok && answer.predictions.Some? ==>
      r == answer.predictions.value
  {
    if !serviceReady || Trim(input) == [] then []
    else if answer.status == Ok && answer.predictions.Some? then answer.predictions.value
    else []
  }

  class Input {
    var inputValue: string
    var places: seq<Prediction>
    /** `isGoogleMapsLoaded` */
    var mapsLoaded: bool
    /** `autocompleteService.current` is set. */
    var serviceReady: bool

    constructor(value: string)
      ensures inputValue == value && places == [] && !mapsLoaded && !serviceReady
      ensures Valid()
    {
      inputValue := value;
      places := [];
      mapsLoaded := false;
      serviceReady := false;
    }

    /** The services are only created once the script has loaded, and
        suggestions are only listed once a service has answered. */
    ghost predicate Valid()
      reads this
    {
      (serviceReady ==> mapsLoaded) && (places != [] ==> serviceReady)
    }

    /** The script's `onload` (or an already loaded API). */
    method LoadMaps()
      requires Valid()
      modifies this
      ensures mapsLoaded
      ensures inputValue == old(inputValue) && places == old(places) && serviceReady == old(serviceReady)
      ensures Valid()
    {
      mapsLoaded := true;
    }

    /** The effect on `[isGoogleMapsLoaded]`: the services are created
        when Maps is loaded and the attribution element is mounted. */
    method InitServices(attributionMounted: bool)
      requires Valid()
      modifies this
      ensures serviceReady == (old(serviceReady) || (mapsLoaded && attributionMounted))
      ensures inputValue == old(inputValue) && places == old(places) && mapsLoaded == old(mapsLoaded)
      ensures Valid()
    {
      if mapsLoaded && attributionMounted {
        serviceReady := true;
      }
    }

    /** `fetchPlaces(input)`, with the service's answer. */
    method FetchPlaces(input: string, answer: Answer)
      requires Valid()
      modifies this
      ensures places == FetchedPlaces(serviceReady, input, answer)
      ensures inputValue == old(inputValue) && mapsLoaded == old(mapsLoaded) && serviceReady == old(serviceReady)
      ensures Valid()
    {
      if !serviceReady || Trim(input) == [] {
        places := [];
        return;
      }
      if answer.status == Ok && answer.predictions.Some? {
        places := answer.predictions.value;
      } else {
        places := [];
      }
    }

    /** `handleInputChange(event, newInputValue)`: the text is always
        stored; places are fetched only with Maps loaded and more than two
        characters, and cleared otherwise. */
    method HandleInputChange(newValue: string, answer: Answer)
      requires Valid()
      modifies this
      ensures inputValue == newValue
      ensures mapsLoaded && Utf16Length(newValue) > 2 ==>
        places == FetchedPlaces(serviceReady, newValue, answer)
      ensures !(mapsLoaded && Utf16Length(newValue) > 2) ==> places == []
      ensures places != [] ==>
        mapsLoaded && serviceReady && Utf16Length(newValue) > 2 && Trim(newValue) != []
      ensures mapsLoaded == old(mapsLoaded) && serviceReady == old(serviceReady)
      ensures Valid()
    {
      inputValue := newValue;
      if mapsLoaded && Utf16Length(newValue) > 2 {
        FetchPlaces(newValue, answer);
      } else {
        places := [];
      }
    }

    /** The effect on `[value]`: the controlled value replaces the text. */
    method SyncValue(value: string)
      requires Valid()
      modifies this
      ensures inputValue == value
      ensures places == old(places) && mapsLoaded == old(mapsLoaded) && serviceReady == old(serviceReady)
      ensures Valid()
    {
      inputValue := value;
    }
  }

  /** Whitespace-only input never fetches, however long. */
  lemma BlankInputClears(input: string, serviceReady: bool, answer: Answer)
    requires AllWhitespace(input)
    ensures FetchedPlaces(serviceReady, input, answer) == []
  {
    TrimEmptyIff(input);
  }
}
