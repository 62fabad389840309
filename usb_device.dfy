/** The USB device record: vendor id, product id, serial and device node. The serial is never
    empty: a missing or empty serial is replaced by the sentinel "Unknown" when the record is
    built, and nothing changes the record afterwards. */
module UsbDevice {
  import opened Wrappers
  import opened PyStrings

  const UNKNOWN_SERIAL: string := "Unknown"

  datatype USBDevice = USBDevice(vendorId: string, productId: string, serial: string, deviceNode: string)

  /** Building a record (`USBDevice(vendor_id, product_id, serial, device_node)`): a falsy serial
      (None or "") is stored as "Unknown", every other field is stored as given. */
  function NewUSBDevice(vendorId: string, productId: string, serial: Option<string>, deviceNode: string): (d: USBDevice)
    ensures d.vendorId == vendorId && d.productId == productId && d.deviceNode == deviceNode
    ensures Truthy(serial) ==> d.serial == serial.value
    ensures !Truthy(serial) ==> d.serial == UNKNOWN_SERIAL
    ensures d.serial != ""
  {
    USBDevice(vendorId, productId, if Truthy(serial) then serial.value else UNKNOWN_SERIAL, deviceNode)
  }

  /** `vars(usb_device)`: the record as the dict handed to the predictor, the prompt and the log. */
  function Vars(d: USBDevice): (r: StrDict)
    ensures r.Keys == {"vendor_id", "product_id", "serial", "device_node"}
    ensures r["vendor_id"] == d.vendorId && r["product_id"] == d.productId
    ensures r["serial"] == d.serial && r["device_node"] == d.deviceNode
  {
    map["vendor_id" := d.vendorId, "product_id" := d.productId,
        "serial" := d.serial, "device_node" := d.deviceNode]
  }

  const REPR_OPEN: string := "USBDevice(vendor_id="
  const REPR_PRODUCT: string := ", product_id="
  const REPR_SERIAL: string := ", serial="
  const REPR_NODE: string := ", device_node="

  /** `__repr__` of the top-level copy of the record. */
  function Repr(d: USBDevice): (r: string)
    ensures REPR_OPEN <= r && r[|r| - 1] == ')'
  {
    REPR_OPEN + d.vendorId + REPR_PRODUCT + d.productId + REPR_SERIAL + d.serial + REPR_NODE + d.deviceNode + ")"
  }

  /** Reading a field that ends at the next comma, followed by the literal `sep`. */
  function ReadField(s: string, sep: string): Option<(string, string)>
  {
    var f := TakeUntil(s, ',');
    var rest := s[|f|..];
    if sep <= rest then Some((f, rest[|sep|..])) else None
  }

  /** An independent reader of `Repr` strings, used to show that `Repr` loses no information. */
  function ParseRepr(s: string): Option<USBDevice>
  {
    if !(REPR_OPEN <= s) then None
    else match ReadField(s[|REPR_OPEN|..], REPR_PRODUCT)
      case None => None
      case Some((v, s1)) => match ReadField(s1, REPR_SERIAL)
        case None => None
        case Some((p, s2)) => match ReadField(s2, REPR_NODE)
          case None => None
          case Some((ser, s3)) =>
            if s3 != [] && s3[|s3| - 1] == ')' then Some(USBDevice(v, p, ser, s3[..|s3| - 1])) else None
  }

  lemma ReadFieldOf(f: string, sep: string, rest: string)
    requires ',' !in f && sep != [] && sep[0] == ','
    ensures ReadField(f + sep + rest, sep) == Some((f, rest))
  {
    TakeUntilField(f, ',', sep + rest);
    assert f + sep + rest == f + (sep + rest);
  }

  /** `__repr__` is readable back whenever vendor id, product id and serial hold no comma
      (the device node, printed last, may hold anything). */
  lemma ReprRoundTrip(d: USBDevice)
    requires ',' !in d.vendorId && ',' !in d.productId && ',' !in d.serial
    ensures ParseRepr(Repr(d)) == Some(d)
  {
    var tail3 := d.deviceNode + ")";
    var tail2 := d.serial + REPR_NODE + tail3;
    var tail1 := d.productId + REPR_SERIAL + tail2;
    var body := d.vendorId + REPR_PRODUCT + tail1;
    assert Repr(d) == REPR_OPEN + body;
    assert Repr(d)[|REPR_OPEN|..] == body;
    ReadFieldOf(d.vendorId, REPR_PRODUCT, tail1);
    assert body == d.vendorId + REPR_PRODUCT + tail1;
    ReadFieldOf(d.productId, REPR_SERIAL, tail2);
    ReadFieldOf(d.serial, REPR_NODE, tail3);
    assert tail3[..|tail3| - 1] == d.deviceNode;
  }
}
