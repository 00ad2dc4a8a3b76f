/** Device-tree property reads shared by the drivers of this model. */
module DeviceTree {

  import opened Wrappers

  /** `dev_read_u32_default`: the property's value, or `default` when the
      property is absent (None). */
  function ReadU32Default(prop: Option<nat>, default: nat): (v: nat)
    ensures prop.Some? ==> v == prop.value
    ensures prop.None? ==> v == default
  {
    match prop
    case Some(x) => x
    case None => default
  }
}
