/** The exceptions the core throws, as values. */
module Exceptions {

  datatype Entity = StorageUnitEntity | CustomerEntity | BookingEntity

  datatype Error =
    | NotFound(entity: Entity)          // NotFoundException
    | NoSuchElement                     // Optional.orElseThrow() without a supplier
    | Unauthorized                      // UnauthorizedAccessException
    | IllegalState                      // unit not AVAILABLE
    | IllegalArgument                   // missing or past argument
    | BookingConflict                   // lost optimistic-lock race
    | InvalidCapacity                   // InvalidCapacityException
    | CapacityReductionNotAllowed       // CapacityReductionNotAllowedException
}
