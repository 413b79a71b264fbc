/** The depth emitter control: raw values 0, 1 and 2 and what they mean. */
module EmitterOption {
  import opened Results

  /** The emitter states the hardware control knows. */
  datatype EmitterMode = Off | On | Auto

  /** The raw control value of each state. */
  function ControlValue(mode: EmitterMode): int
  {
    match mode
    case Off => 0
    case On => 1
    case Auto => 2
  }

  /** The display name of each state. */
  function Name(mode: EmitterMode): string
  {
    match mode
    case Off => "Off"
    case On => "On"
    case Auto => "Auto"
  }

  /** `get_value_description`: the display name of a raw control value; anything outside
      0..2 is an invalid value. */
  function ValueDescription(value: int): (r: Result<string>)
    ensures r.Ok? <==> 0 <= value <= 2
    ensures r.Err? ==> r.error == InvalidValue("value not found")
  {
    match value
    case 0 => Ok("Off")
    case 1 => Ok("On")
    case 2 => Ok("Auto")
    case _ => Err(InvalidValue("value not found"))
  }

  /** Each state's raw value is described by that state's name. */
  lemma DescribesEveryMode(mode: EmitterMode)
    ensures ValueDescription(ControlValue(mode)) == Ok(Name(mode))
  {
  }

  /** A value is described exactly when it is the raw value of some state, and then by
      that state's name. */
  lemma {:induction false} DescriptionOnlyForModes(value: int)
    ensures ValueDescription(value).Ok? <==> exists mode :: ControlValue(mode) == value
    ensures forall mode :: ControlValue(mode) == value ==> ValueDescription(value) == Ok(Name(mode))
  {
    if 0 <= value <= 2 {
      var mode := if value == 0 then Off else if value == 1 then On else Auto;
      assert ControlValue(mode) == value;
    }
  }

  /** Different values get different descriptions. */
  lemma DescriptionsDistinct(v: int, w: int)
    requires ValueDescription(v).Ok? && ValueDescription(w).Ok? && v != w
    ensures ValueDescription(v).value != ValueDescription(w).value
  {
  }

  // ---------------------------------------------------------------------------
  // The option's help text
  // ---------------------------------------------------------------------------

  /** A help text as the meaning it gives each raw value. */
  predicate AgreesWithDescriptions(help: seq<(int, EmitterMode)>)
  {
    forall k :: 0 <= k < |help| ==> ValueDescription(help[k].0) == Ok(Name(help[k].1))
  }

  /** The help text the option is constructed with: 0 off, 1 off, 2 auto. */
  function HelpTextAsWritten(): (help: seq<(int, EmitterMode)>)
    ensures |help| == 3
  {
    [(0, Off), (1, Off), (2, Auto)]
  }

  /** The help text as the description function reads the values: 0 off, 1 on, 2 auto. */
  function HelpText(): (help: seq<(int, EmitterMode)>)
    ensures |help| == 3
    ensures forall k :: 0 <= k < |help| ==> help[k].0 == k
  {
    [(0, Off), (1, On), (2, Auto)]
  }

  /** The help text as written calls value 1 "off", while value 1 is described as "On". */
  lemma {:induction false} HelpTextAsWrittenContradicts()
    ensures !AgreesWithDescriptions(HelpTextAsWritten())
    ensures HelpTextAsWritten()[1] == (1, Off) && ValueDescription(1) == Ok(Name(On))
  {
    assert ValueDescription(HelpTextAsWritten()[1].0) != Ok(Name(HelpTextAsWritten()[1].1));
  }

  /** The corrected help text names every value's state as the description does, and
      covers every valid value. */
  lemma {:induction false} HelpTextAgrees()
    ensures AgreesWithDescriptions(HelpText())
    ensures forall v :: ValueDescription(v).Ok? ==> exists k :: 0 <= k < |HelpText()| && HelpText()[k].0 == v
  {
    forall v | ValueDescription(v).Ok?
      ensures exists k :: 0 <= k < |HelpText()| && HelpText()[k].0 == v
    {
      assert HelpText()[v].0 == v;
    }
  }
}
