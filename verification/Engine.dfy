/** The single entry point of the core: dispatch a command, then announce the touch if it moved. */
module Engines {
  import opened Types
  import opened BookViews
  import opened Matching
  import opened Arenas
  import opened BookStore
  import opened OrderBooks

  class Engine {
    const book: Book

    ghost predicate Valid()
      reads this, book, book.arena
    {
      book.Valid()
    }

    constructor ()
      ensures Valid() && fresh(book) && fresh(book.arena) && book.arena.slots == []
      ensures book.view == EMPTY
    {
      book := new Book();
    }

    /** `intact` is false where the source panics. */
    method Dispatch(c: Command) returns (intact: bool, events: seq<Event>)
      requires Valid() && WellFormed(c) && (TakesSlot(c) ==> book.arena.HasRoom())
      modifies book, book.arena
      ensures Valid() && |book.arena.slots| <= |old(book.arena.slots)| + 1
      ensures intact <==> !Stalls(old(book.view), c)
      ensures book.view == Matching.Dispatch(old(book.view), c).book
      ensures events == if intact then Matching.Dispatch(old(book.view), c).events else StallRows(old(book.view))
    {
      hide Wf, Stores, FreeListExact, SubmitGtc, SubmitIoc, SubmitFok, SubmitPostOnly, SubmitMarket;
      hide Modify, Cancel, CancelAll, SnapshotEvents, PricesPositive, StallRows;
      intact := true;
      match c {
        case NewOrder(k, side, price, qty, kind, tif, _) =>
          if kind.Market? {
            events := book.SubmitMarket(k, side, qty);
          } else {
            var t := Taker(k, side, price);
            match tif {
              case Gtc => events := book.SubmitGtc(t, qty);
              case Ioc => events := book.SubmitIoc(t, qty);
              case Fok => events := book.SubmitFok(t, qty);
              case PostOnly => events := book.SubmitPostOnly(t, qty);
            }
          }
        case CancelOrder(k) => events := book.Cancel(k);
        case CancelReplace(k, newPrice, newQty) => events := book.Modify(k, newPrice, newQty);
        case MassCancel(a) => events := book.MassCancelAccount(a);
        case Snapshot => intact, events := book.SnapshotBook();
        case KillSwitch(_) => events := [];
      }
    }

    method Apply(c: Command) returns (intact: bool, events: seq<Event>)
      requires Valid() && WellFormed(c) && (TakesSlot(c) ==> book.arena.HasRoom())
      modifies book, book.arena
      ensures Valid() && |book.arena.slots| <= |old(book.arena.slots)| + 1
      ensures intact <==> !Stalls(old(book.view), c)
      ensures book.view == Matching.Apply(old(book.view), c).book
      ensures events == if intact then Matching.Apply(old(book.view), c).events else StallRows(old(book.view))
    {
      hide Wf, Stores, FreeListExact, Matching.Dispatch, Stalls, StallRows;
      var before := book.TopOfBook();
      intact, events := Dispatch(c);
      if !intact {
        return;
      }
      var after := book.TopOfBook();
      if before != after {
        events := events + [BookUpdate(after.0, after.1)];
      }
    }
  }
}
