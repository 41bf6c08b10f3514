/** The administrator's commands on the stored rows they change in place, with the audit log they append to. */
module AdminCommandsObject {
  import opened Wrappers
  import Access
  import Catalog
  import Stock
  import StockLedger
  import StockRuns

  datatype AuditEntry =
    | StockCorrected(actor: nat, sku: nat, before: Option<int>, after: Option<int>, reason: string)
    | AccessChanged(access: Access.Entry)
    | RecordUpdated(record: Catalog.Entry)

  datatype Outcome<+T, +E> = Success(value: T) | Failure(error: E)

  class AdminCommands {
    var stock: Stock.Store
    var users: Access.Users
    var records: Catalog.Records
    var audit: seq<AuditEntry>

    constructor (stock: Stock.Store, users: Access.Users, records: Catalog.Records)
      ensures this.stock == stock && this.users == users && this.records == records && audit == []
    {
      this.stock, this.users, this.records, audit := stock, users, records, [];
    }

    /** Corrects a SKU's stock if it is still what the administrator saw and covers the live reservations. The row
        returned is the one the inventory list shows afterwards. */
    method CorrectStock(actor: nat, sku: nat, expected: Option<int>, quantity: Option<int>, reason: string)
      returns (r: Outcome<Stock.Inventory, Stock.Error>)
      requires expected.Some? ==> expected.value >= 0
      requires quantity.Some? ==> quantity.value >= 0
      modifies this`stock, this`audit
      ensures match Stock.CorrectStock(old(stock), sku, expected, quantity)
              case Raised(error) => r == Failure(error) && stock == old(stock) && audit == old(audit)
              case Committed(after) =>
                && stock == after && sku in stock.skus
                && audit == old(audit) + [StockCorrected(actor, sku, expected, quantity, reason)]
                && r == Success(Stock.InventoryRow(stock, sku))
      ensures r.Success? <==>
              && sku in old(stock).skus && old(stock).skus[sku].stock == expected
              && (quantity.Some? ==> quantity.value >= Stock.InventoryRow(old(stock), sku).reserved)
      ensures r.Success? ==>
              audit == old(audit) + [StockCorrected(actor, sku, old(stock).skus[sku].stock, stock.skus[sku].stock, reason)]
      ensures StockRuns.Sound(old(stock)) ==> StockRuns.Sound(stock)
    {
      StockLedger.CorrectionIsExact(stock, sku, expected, quantity);
      if sku !in stock.skus {
        return Failure(Stock.SkuNotFound);
      }
      if stock.skus[sku].stock != expected {
        return Failure(Stock.StockChanged);
      }
      var reserved := Stock.Reserved(stock, sku);
      if quantity.Some? && quantity.value < reserved {
        return Failure(Stock.StockBelowReserved);
      }
      if StockRuns.Sound(stock) {
        StockRuns.CorrectionStaysSound(stock, sku, expected, quantity);
      }
      StockRuns.InventoryAgreesWithCorrection(stock, sku, expected, quantity);
      var before := stock.skus[sku].stock;
      stock := Stock.WithStock(stock, sku, quantity);
      audit := audit + [StockCorrected(actor, sku, before, quantity, reason)];
      return Success(Stock.Inventory(quantity, reserved, if quantity.None? then None else Some(quantity.value - reserved),
                                     stock.skus[sku].active));
    }

    /** Changes a user's role or active flag; an active administrator always remains. */
    method ChangeUserAccess(actor: nat, target: nat, update: Access.Update)
      returns (r: Outcome<Access.User, Access.Error>)
      modifies this`users, this`audit
      ensures match Access.ChangeAccess(old(users), actor, target, update)
              case Refused(error) => r == Failure(error) && users == old(users) && audit == old(audit)
              case Changed(after, entry) =>
                users == after && audit == old(audit) + [AccessChanged(entry)] && r == Success(entry.after)
      ensures Access.ActiveAdmins(old(users)) != {} ==> Access.ActiveAdmins(users) != {}
    {
      if target !in users {
        return Failure(Access.UserNotFound);
      }
      var user := users[target];
      if target == actor && Access.TakesAdminAway(update) {
        return Failure(Access.UnsafeSelfChange);
      }
      if user.role == Access.Admin && Access.TakesAdminAway(update) {
        var activeAdmins := |Access.ActiveAdmins(users)|;
        if activeAdmins <= 1 {
          return Failure(Access.LastAdmin);
        }
      }
      if Access.ActiveAdmins(users) != {} {
        Access.ChangeKeepsAnAdmin(users, actor, target, update);
      }
      var before := user;
      if update.role.Some? {
        user := user.(role := update.role.value);
      }
      if update.active.Some? {
        user := user.(active := update.active.value);
      }
      users := users[target := user];
      audit := audit + [AccessChanged(Access.Entry(actor, target, before, user))];
      return Success(user);
    }

    /** The update handlers of categories, products and SKUs: version check, change and audit as one command. */
    method UpdateRecord(edit: Catalog.Edit) returns (r: Outcome<Catalog.Record, Catalog.Error>)
      modifies this`records, this`audit
      ensures match Catalog.Update(old(records), edit)
              case Refused(error) => r == Failure(error) && records == old(records) && audit == old(audit)
              case Saved(after, entry) =>
                records == after && audit == old(audit) + [RecordUpdated(entry)] && r == Success(entry.after)
      ensures match r
              case Failure(error) => Catalog.RefusedFor(old(records), edit, Some(error))
              case Success(record) =>
                && Catalog.RefusedFor(old(records), edit, None) && edit.target in records
                && records[edit.target] == record && Catalog.Applies(old(records)[edit.target], record, edit)
                && (forall id :: id in old(records) && id != edit.target ==> id in records && records[id] == old(records)[id])
    {
      Catalog.UpdateAppliesTheEdit(records, edit);
      if edit.target !in records {
        return Failure(Catalog.RecordNotFound);
      }
      var record := records[edit.target];
      if record.updatedAt != edit.token {
        return Failure(Catalog.RecordChanged);
      }
      if !edit.valid {
        return Failure(Catalog.Invalid);
      }
      var fields := record.fields + edit.changes;
      if fields != record.fields {
        record := Catalog.Record(fields, edit.startedAt);
      }
      records := records[edit.target := record];
      audit := audit + [RecordUpdated(Catalog.Entry(edit.actor, edit.target, record))];
      return Success(record);
    }
  }
}
