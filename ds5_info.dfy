/** Model identification of a DS5 camera: the known product IDs and the number of
    sub-devices each model exposes. */
module Ds5Info {
  import opened Bytes
  import opened Results

  /** The DS5 models this driver knows. */
  datatype Sku = RS400P | RS410A | RS420R | RS430C | RS450T

  /** USB product ID of each model. */
  function Pid(sku: Sku): uint16
  {
    match sku
    case RS400P => 0x0ad1
    case RS410A => 0x0ad2
    case RS420R => 0x0ad3
    case RS430C => 0x0ad4
    case RS450T => 0x0ad5
  }

  /** `rs4xx_sku_pid`: the product IDs of every known model. */
  const Rs4xxSkuPids: seq<uint16> := [Pid(RS400P), Pid(RS410A), Pid(RS420R), Pid(RS430C), Pid(RS450T)]

  /** Sub-devices of each model: the RS450T also has colour and motion, the others depth only. */
  function Topology(sku: Sku): nat
  {
    if sku == RS450T then 3 else 1
  }

  /** The identity record of one grouped camera. Only the product IDs of its depth (UVC)
      interfaces are read by the operations modelled here. */
  datatype DeviceInfo = DeviceInfo(depthPids: seq<uint16>)

  /** The switch of `get_subdevice_count` on one product ID. */
  function SubdeviceCountOf(pid: uint16): (r: Result<nat>)
    ensures r.Ok? <==> pid in Rs4xxSkuPids
    ensures r.Ok? ==> r.value == (if pid == Pid(RS450T) then 3 else 1)
    ensures r.Err? ==> r.error == NotImplemented(pid)
  {
    if pid == Pid(RS400P) || pid == Pid(RS410A) || pid == Pid(RS420R) || pid == Pid(RS430C) then Ok(1)
    else if pid == Pid(RS450T) then Ok(3)
    else Err(NotImplemented(pid))
  }

  /** Sub-device count of a camera, decided by the product ID of its first depth interface;
      an unknown model is an error, never a default. */
  function GetSubdeviceCount(info: DeviceInfo): (r: Result<nat>)
    requires |info.depthPids| > 0
    ensures r.Ok? <==> info.depthPids[0] in Rs4xxSkuPids
    ensures r.Ok? ==> r.value == (if info.depthPids[0] == Pid(RS450T) then 3 else 1)
    ensures r.Err? ==> r.error == NotImplemented(info.depthPids[0])
  {
    SubdeviceCountOf(info.depthPids[0])
  }

  /** Every model gets its own topology. */
  lemma SubdeviceCountPerSku(sku: Sku)
    ensures SubdeviceCountOf(Pid(sku)) == Ok(Topology(sku))
  {
  }

  /** Every product ID the table lists gets an answer, and only those do. */
  lemma {:induction false} SubdeviceCountTotalOnTable(pid: uint16)
    ensures SubdeviceCountOf(pid).Ok? <==> exists sku :: Pid(sku) == pid
  {
    if pid in Rs4xxSkuPids {
      var k :| 0 <= k < |Rs4xxSkuPids| && Rs4xxSkuPids[k] == pid;
      var sku := [RS400P, RS410A, RS420R, RS430C, RS450T][k];
      assert Pid(sku) == pid;
    }
  }

  /** No two models share a product ID, so the table has no repeated entry. */
  lemma PidsDistinct(a: Sku, b: Sku)
    requires a != b
    ensures Pid(a) != Pid(b)
  {
  }
}
