/** Link records reported by the modem (src/link.rs). */
module Links {
  import opened Prelude
  import Device

  /** Link data from link messages, kept as the three bytes received. */
  datatype LinkData = LinkData(data: Bytes3)

  /** `LinkData::from([u8; 3])`. */
  function LinkDataFrom(data: Bytes3): (r: LinkData)
    ensures r.data == data
  {
    LinkData(data)
  }

  /**
   * The result of a linking attempt. `controller` is the modem's role:
   * Some(true) controller, Some(false) responder, None deleted.
   */
  datatype LinkResult = LinkResult(
    controller: Option<bool>,
    group: Byte,
    id: Device.Address,
    category: Bytes2,
    firmware: Option<Byte>)
  {
    /** The group number assigned to the link. */
    function Group(): (r: Byte)
      ensures r == group
    {
      group
    }

    /** Whether the modem is a slave (responder) of the linked device; a deleted link is neither role. */
    function IsSlave(): (r: bool)
      ensures r ==> !Deleted()
    {
      controller == Some(false)
    }

    /** The Insteon name for `IsSlave`. */
    function IsResponder(): (r: bool)
      ensures r == IsSlave()
    {
      IsSlave()
    }

    /** Whether the modem is the master (controller) of the linked device; a deleted link is neither role. */
    function IsMaster(): (r: bool)
      ensures r ==> !Deleted() && !IsSlave()
    {
      controller == Some(true)
    }

    /** The Insteon name for `IsMaster`. */
    function IsController(): (r: bool)
      ensures r == IsMaster()
    {
      IsMaster()
    }

    /** Whether the link was deleted: the modem has no role. */
    function Deleted(): (r: bool)
      ensures r <==> controller != Some(true) && controller != Some(false)
    {
      match controller
      case Some(true) => false
      case Some(false) => false
      case None => true
    }

    /** The address of the linked device. */
    function Id(): (r: Device.Address)
      ensures r == id
    {
      id
    }

    /** The linked device's category; meaningless, and so absent, unless the modem is the controller. */
    function Category(): (r: Option<Byte>)
      ensures r.Some? <==> IsController()
    {
      if IsController() then Some(category[0]) else None
    }

    /** The linked device's subcategory, under the same condition. */
    function Subcategory(): (r: Option<Byte>)
      ensures r.Some? <==> IsController()
    {
      if IsController() then Some(category[1]) else None
    }

    /** The linked device's firmware version, when the modem is the controller and one was reported. */
    function Firmware(): (r: Option<Byte>)
      ensures r.Some? ==> IsController()
    {
      if IsController() then firmware else None
    }
  }

  /** `LinkResult::from([u8; 8])`. */
  function FromBytes(bytes: Bytes8): (r: LinkResult)
    ensures r.IsResponder() <==> bytes[0] == 0x00
    ensures r.IsController() <==> bytes[0] == 0x01
    ensures r.Deleted() <==> bytes[0] != 0x00 && bytes[0] != 0x01
    ensures r.Group() == bytes[1]
    ensures r.Id() == Device.Address(bytes[2..5])
    ensures r.IsController() ==> r.Category() == Some(bytes[5]) && r.Subcategory() == Some(bytes[6])
    ensures r.IsController() ==> (r.Firmware() == None <==> bytes[7] == 0xFF)
    ensures r.IsController() && bytes[7] != 0xFF ==> r.Firmware() == Some(bytes[7])
  {
    var controller := match bytes[0]
      case 0x00 => Some(false)
      case 0x01 => Some(true)
      case _ => None;
    var group := bytes[1];
    var address := Device.FromBytes([bytes[2], bytes[3], bytes[4]]);
    var category := [bytes[5], bytes[6]];
    var vers := bytes[7];
    var firmware := if vers == 0xFF then None else Some(vers);
    LinkResult(controller, group, address, category, firmware)
  }

  /** Every link result has exactly one role, and the Insteon names are aliases of the master/slave ones. */
  lemma ExactlyOneRole(r: LinkResult)
    ensures r.IsController() || r.IsResponder() || r.Deleted()
    ensures !(r.IsController() && r.IsResponder())
    ensures !(r.IsController() && r.Deleted()) && !(r.IsResponder() && r.Deleted())
    ensures r.IsSlave() == r.IsResponder() && r.IsMaster() == r.IsController()
  {
    match r.controller
    case None =>
    case Some(b) => assert r.controller == Some(b);
  }

  /** Category, subcategory and firmware are absent unless the modem is the controller. */
  lemma DetailsOnlyForController(r: LinkResult)
    requires !r.IsController()
    ensures r.Category() == None && r.Subcategory() == None && r.Firmware() == None
  {
  }
}
