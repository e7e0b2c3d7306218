/** The merchant record and its row in the merchant file
    (backend/models/merchant.py, with the file header of
    backend/storage/merchant_store.py). */
module MerchantModel {
  import opened Wrappers

  datatype Merchant = Merchant(
    merchantId: string,
    merchantName: string,
    uen: string,
    bankName: string,
    bankCode: string,
    branchCode: string,
    accountNumber: string,
    accountHolderName: string,
    registrationDate: string,
    status: string)

  /** The column names of the merchant file, in file order. */
  const MerchantHeader: seq<string> := [
    "Merchant_ID", "Merchant_Name", "UEN", "Bank_Name", "Bank_Code",
    "Branch_Code", "Account_Number", "Account_Holder_Name",
    "Registration_Date", "Status"]

  /** The field of `m` that the file column `name` holds, if any. */
  function Column(m: Merchant, name: string): Option<string> {
    match name
    case "Merchant_ID" => Some(m.merchantId)
    case "Merchant_Name" => Some(m.merchantName)
    case "UEN" => Some(m.uen)
    case "Bank_Name" => Some(m.bankName)
    case "Bank_Code" => Some(m.bankCode)
    case "Branch_Code" => Some(m.branchCode)
    case "Account_Number" => Some(m.accountNumber)
    case "Account_Holder_Name" => Some(m.accountHolderName)
    case "Registration_Date" => Some(m.registrationDate)
    case "Status" => Some(m.status)
    case _ => None
  }

  /** `Merchant.to_csv_row`: one value per header column, each the field the
      column names, copied verbatim. */
  function ToCsvRow(m: Merchant): (r: seq<string>)
    ensures |r| == |MerchantHeader| == 10
    ensures forall i :: 0 <= i < |r| ==> Column(m, MerchantHeader[i]) == Some(r[i])
  {
    [m.merchantId, m.merchantName, m.uen, m.bankName, m.bankCode,
     m.branchCode, m.accountNumber, m.accountHolderName,
     m.registrationDate, m.status]
  }

  /** The row loses nothing: distinct merchants give distinct rows. */
  lemma ToCsvRowInjective(a: Merchant, b: Merchant)
    ensures ToCsvRow(a) == ToCsvRow(b) ==> a == b
  {
    if ToCsvRow(a) == ToCsvRow(b) {
      forall i | 0 <= i < 10 ensures Column(a, MerchantHeader[i]) == Column(b, MerchantHeader[i]) {
      }
    }
  }
}
