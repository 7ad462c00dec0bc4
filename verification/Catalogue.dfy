/** The archive records: what an item, a department and a barcode row hold. */
module Catalogue {

  datatype Item = Item(code: nat, description: string, department: nat, price: int, linkedBarcode: nat)

  datatype Department = Department(code: nat, parentCode: nat, description: string)

  datatype BarcodeRow = BarcodeRow(code: nat, itemCode: nat)

  const NO_ITEM := Item(0, "", 0, 0, 0)
  const NO_DEPARTMENT := Department(0, 0, "")
  const NO_BARCODE := BarcodeRow(0, 0)

  /** What operator[] of an archive yields: a stored element, or the freshly inserted default. */
  function Lookup<T>(elements: map<nat, T>, key: nat, blank: T): T {
    if key in elements then elements[key] else blank
  }
}
